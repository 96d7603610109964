/**
 * The bit-packed mosquito record of the GPU simulator. The attributes are
 * sex (S), Wolbachia status (SW), life phase (FS), age (IE), dengue status
 * (SD), serotype (ST), alive (VD) and a counter (C) in word 1; blood meals
 * (CR), generation flag (FG), treatment influence (TI), the search flags (FM,
 * FP, FV), gestation and laying-interval counters (CG, CE), offspring type
 * (PR), fed (AM), mating type (TA) and laying counter (CP) in word 2; latitude
 * and lot (X, L) in word 3; longitude and block (Y, Q) in word 4.
 */
module MosquitoBits {
  import opened Packed

  type Mosquito = Record

  /** One constructor per attribute, named after the macro suffix. */
  datatype Field =
    | S | SW | FS | IE | SD | ST | VD | C
    | CR | FG | TI | FM | FP | FV | CG | CE | PR | AM | TA | CP
    | X | L
    | Y | Q

  /** The word each attribute lives in. */
  function TiraOf(f: Field): Tira {
    match f
    case S | SW | FS | IE | SD | ST | VD | C => T1
    case CR | FG | TI | FM | FP | FV | CG | CE | PR | AM | TA | CP => T2
    case X | L => T3
    case Y | Q => T4
  }

  /** TM_*: the width of each attribute in bits. */
  function Width(f: Field): (r: bv32)
    ensures 0 < r < 32
  {
    match f
    case S => 1
    case SW => 1
    case FS => 3
    case IE => 8
    case SD => 2
    case ST => 3
    case VD => 1
    case C => 5
    case CR => 4
    case FG => 1
    case TI => 2
    case FM => 1
    case FP => 1
    case FV => 1
    case CG => 5
    case CE => 5
    case PR => 3
    case AM => 1
    case TA => 2
    case CP => 5
    case X => 19
    case L => 13
    case Y => 23
    case Q => 9
  }

  /** AM_*: the number of bits below each attribute. */
  function Shift(f: Field): (r: bv32)
    ensures r < 32
  {
    match f
    case S => 23
    case SW => 22
    case FS => 19
    case IE => 11
    case SD => 9
    case ST => 6
    case VD => 5
    case C => 0
    case CR => 27
    case FG => 26
    case TI => 24
    case FM => 23
    case FP => 22
    case FV => 21
    case CG => 16
    case CE => 11
    case PR => 8
    case AM => 7
    case TA => 5
    case CP => 0
    case X => 13
    case L => 0
    case Y => 9
    case Q => 0
  }

  /** MAM_*: the positive masks. */
  function PosMask(f: Field): bv32
  {
    match f
    case S => 0x0080_0000
    case SW => 0x0040_0000
    case FS => 0x0038_0000
    case IE => 0x0007_F800
    case SD => 0x0000_0600
    case ST => 0x0000_01C0
    case VD => 0x0000_0020
    case C => 0x0000_001F
    case CR => 0x7800_0000
    case FG => 0x0400_0000
    case TI => 0x0300_0000
    case FM => 0x0080_0000
    case FP => 0x0040_0000
    case FV => 0x0020_0000
    case CG => 0x001F_0000
    case CE => 0x0000_F800
    case PR => 0x0000_0700
    case AM => 0x0000_0080
    case TA => 0x0000_0060
    case CP => 0x0000_001F
    case X => 0xFFFF_E000
    case L => 0x0000_1FFF
    case Y => 0xFFFF_FE00
    case Q => 0x0000_01FF
  }

  /** NMM_*: the negative masks. */
  function NegMask(f: Field): bv32
  {
    match f
    case S => 0xFF7F_FFFF
    case SW => 0xFFBF_FFFF
    case FS => 0xFFC7_FFFF
    case IE => 0xFFF8_07FF
    case SD => 0xFFFF_F9FF
    case ST => 0xFFFF_FE3F
    case VD => 0xFFFF_FFDF
    case C => 0xFFFF_FFE0
    case CR => 0x87FF_FFFF
    case FG => 0xFBFF_FFFF
    case TI => 0xFCFF_FFFF
    case FM => 0xFF7F_FFFF
    case FP => 0xFFBF_FFFF
    case FV => 0xFFDF_FFFF
    case CG => 0xFFE0_FFFF
    case CE => 0xFFFF_07FF
    case PR => 0xFFFF_F8FF
    case AM => 0xFFFF_FF7F
    case TA => 0xFFFF_FF9F
    case CP => 0xFFFF_FFE0
    case X => 0x0000_1FFF
    case L => 0xFFFF_E000
    case Y => 0x0000_01FF
    case Q => 0xFFFF_FE00
  }

  /** 2^TM_f: the number of values each attribute can hold. */
  function Limit(f: Field): bv32
  {
    match f
    case S => 2
    case SW => 2
    case FS => 8
    case IE => 256
    case SD => 4
    case ST => 8
    case VD => 2
    case C => 32
    case CR => 16
    case FG => 2
    case TI => 4
    case FM => 2
    case FP => 2
    case FV => 2
    case CG => 32
    case CE => 32
    case PR => 8
    case AM => 2
    case TA => 4
    case CP => 32
    case X => 524288
    case L => 8192
    case Y => 8388608
    case Q => 512
  }

  /** Each positive mask is (2^W - 1) << S for the attribute's width W and shift S. */
  lemma PosMaskLayout(f: Field)
    ensures Fits(Shift(f), Width(f)) && PosMask(f) == FieldMask(Shift(f), Width(f))
  {
    match f
    case S =>
    case SW =>
    case FS =>
    case IE =>
    case SD =>
    case ST =>
    case VD =>
    case C =>
    case CR =>
    case FG =>
    case TI =>
    case FM =>
    case FP =>
    case FV =>
    case CG =>
    case CE =>
    case PR =>
    case AM =>
    case TA =>
    case CP =>
    case X =>
    case L =>
    case Y =>
    case Q =>
  }

  /** Each negative mask is the complement of the positive one. */
  lemma NegMaskLayout(f: Field)
    ensures NegMask(f) == !PosMask(f)
  {
    match f
    case S =>
    case SW =>
    case FS =>
    case IE =>
    case SD =>
    case ST =>
    case VD =>
    case C =>
    case CR =>
    case FG =>
    case TI =>
    case FM =>
    case FP =>
    case FV =>
    case CG =>
    case CE =>
    case PR =>
    case AM =>
    case TA =>
    case CP =>
    case X =>
    case L =>
    case Y =>
    case Q =>
  }

  /** The limit is 2 to the power of the width. */
  lemma LimitLayout(f: Field)
    ensures Limit(f) == (1 as bv32) << Width(f)
  {
    match f
    case S =>
    case SW =>
    case FS =>
    case IE =>
    case SD =>
    case ST =>
    case VD =>
    case C =>
    case CR =>
    case FG =>
    case TI =>
    case FM =>
    case FP =>
    case FV =>
    case CG =>
    case CE =>
    case PR =>
    case AM =>
    case TA =>
    case CP =>
    case X =>
    case L =>
    case Y =>
    case Q =>
  }

  /** Within each word the attributes are adjacent, listed from the top bit down. */
  lemma Adjacent()
    ensures Shift(S) + Width(S) == 24
    ensures Shift(S) == Shift(SW) + Width(SW)
    ensures Shift(SW) == Shift(FS) + Width(FS)
    ensures Shift(FS) == Shift(IE) + Width(IE)
    ensures Shift(IE) == Shift(SD) + Width(SD)
    ensures Shift(SD) == Shift(ST) + Width(ST)
    ensures Shift(ST) == Shift(VD) + Width(VD)
    ensures Shift(VD) == Shift(C) + Width(C)
    ensures Shift(C) == 0
    ensures Shift(CR) + Width(CR) == 31
    ensures Shift(CR) == Shift(FG) + Width(FG)
    ensures Shift(FG) == Shift(TI) + Width(TI)
    ensures Shift(TI) == Shift(FM) + Width(FM)
    ensures Shift(FM) == Shift(FP) + Width(FP)
    ensures Shift(FP) == Shift(FV) + Width(FV)
    ensures Shift(FV) == Shift(CG) + Width(CG)
    ensures Shift(CG) == Shift(CE) + Width(CE)
    ensures Shift(CE) == Shift(PR) + Width(PR)
    ensures Shift(PR) == Shift(AM) + Width(AM)
    ensures Shift(AM) == Shift(TA) + Width(TA)
    ensures Shift(TA) == Shift(CP) + Width(CP)
    ensures Shift(CP) == 0
    ensures Shift(X) + Width(X) == 32
    ensures Shift(X) == Shift(L) + Width(L)
    ensures Shift(L) == 0
    ensures Shift(Y) + Width(Y) == 32
    ensures Shift(Y) == Shift(Q) + Width(Q)
    ensures Shift(Q) == 0
  {}

  // ------------------------------------------------------------ attributes
  //
  // For each attribute F: ReadF is GET_M with F's word, positive mask and
  // shift (mask, then shift down); WriteF is SET_M with F's negative mask
  // and shift (clear, then or in the value shifted up; the value itself is
  // not masked). GetF and WithF apply them to the attribute's word of a
  // record, as GET_F_M_ and SET_F_M do. The lemma SetF states that a
  // value that fits is read back, that the other attributes of the same word
  // and the other words keep their values, that a second write overrides a
  // first one, and that writing back the value just read changes nothing.

  // ---- word 1

  function ReadS(w: bv32): bv32 {
    (w & 0x0080_0000) >> 23
  }

  function WriteS(w: bv32, novo: bv32): bv32 {
    (w & 0xFF7F_FFFF) | (novo << 23)
  }

  /** ReadS and WriteS use the mask, negative mask and shift tabulated for S. */
  lemma SIsTable(w: bv32, novo: bv32)
    ensures ReadS(w) == (w & PosMask(S)) >> Shift(S)
    ensures WriteS(w, novo) == (w & NegMask(S)) | (novo << Shift(S))
  {}

  function GetS(m: Mosquito): bv32 {
    ReadS(m.t1)
  }

  function WithS(m: Mosquito, novo: bv32): Mosquito {
    m.(t1 := WriteS(m.t1, novo))
  }

  lemma ReadSFits(w: bv32)
    ensures ReadS(w) < 2
  {}

  lemma WriteSThenRead(w: bv32, v: bv32)
    requires v < 2
    ensures ReadS(WriteS(w, v)) == v
    ensures ReadSW(WriteS(w, v)) == ReadSW(w)
    ensures ReadFS(WriteS(w, v)) == ReadFS(w)
    ensures ReadIE(WriteS(w, v)) == ReadIE(w)
    ensures ReadSD(WriteS(w, v)) == ReadSD(w)
    ensures ReadST(WriteS(w, v)) == ReadST(w)
    ensures ReadVD(WriteS(w, v)) == ReadVD(w)
    ensures ReadC(WriteS(w, v)) == ReadC(w)
  {}

  lemma WriteSKeepsOthers(w: bv32, v: bv32)
    requires v < 2
    ensures WriteS(w, v) & 0xFF7F_FFFF == w & 0xFF7F_FFFF
  {}

  lemma WriteSSeesOthers(x: bv32, y: bv32, v: bv32)
    requires x & 0xFF7F_FFFF == y & 0xFF7F_FFFF
    ensures WriteS(x, v) == WriteS(y, v)
  {}

  lemma WriteSTwice(w: bv32, v: bv32, v': bv32)
    requires v < 2
    ensures WriteS(WriteS(w, v), v') == WriteS(w, v')
  {
    WriteSKeepsOthers(w, v);
    WriteSSeesOthers(WriteS(w, v), w, v');
  }

  lemma WriteSRestores(w: bv32)
    ensures WriteS(w, ReadS(w)) == w
  {}

  lemma SetS(m: Mosquito, v: bv32, v': bv32)
    requires v < 2
    ensures GetS(WithS(m, v)) == v
    ensures GetSW(WithS(m, v)) == GetSW(m)
    ensures GetFS(WithS(m, v)) == GetFS(m)
    ensures GetIE(WithS(m, v)) == GetIE(m)
    ensures GetSD(WithS(m, v)) == GetSD(m)
    ensures GetST(WithS(m, v)) == GetST(m)
    ensures GetVD(WithS(m, v)) == GetVD(m)
    ensures GetC(WithS(m, v)) == GetC(m)
    ensures WithS(m, v) == m.(t1 := WithS(m, v).t1)
    ensures WithS(WithS(m, v), v') == WithS(m, v')
    ensures WithS(m, GetS(m)) == m
  {
    WriteSThenRead(m.t1, v);
    WriteSTwice(m.t1, v, v');
    WriteSRestores(m.t1);
  }

  function ReadSW(w: bv32): bv32 {
    (w & 0x0040_0000) >> 22
  }

  function WriteSW(w: bv32, novo: bv32): bv32 {
    (w & 0xFFBF_FFFF) | (novo << 22)
  }

  /** ReadSW and WriteSW use the mask, negative mask and shift tabulated for SW. */
  lemma SWIsTable(w: bv32, novo: bv32)
    ensures ReadSW(w) == (w & PosMask(SW)) >> Shift(SW)
    ensures WriteSW(w, novo) == (w & NegMask(SW)) | (novo << Shift(SW))
  {}

  function GetSW(m: Mosquito): bv32 {
    ReadSW(m.t1)
  }

  function WithSW(m: Mosquito, novo: bv32): Mosquito {
    m.(t1 := WriteSW(m.t1, novo))
  }

  lemma ReadSWFits(w: bv32)
    ensures ReadSW(w) < 2
  {}

  lemma WriteSWThenRead(w: bv32, v: bv32)
    requires v < 2
    ensures ReadSW(WriteSW(w, v)) == v
    ensures ReadS(WriteSW(w, v)) == ReadS(w)
    ensures ReadFS(WriteSW(w, v)) == ReadFS(w)
    ensures ReadIE(WriteSW(w, v)) == ReadIE(w)
    ensures ReadSD(WriteSW(w, v)) == ReadSD(w)
    ensures ReadST(WriteSW(w, v)) == ReadST(w)
    ensures ReadVD(WriteSW(w, v)) == ReadVD(w)
    ensures ReadC(WriteSW(w, v)) == ReadC(w)
  {}

  lemma WriteSWKeepsOthers(w: bv32, v: bv32)
    requires v < 2
    ensures WriteSW(w, v) & 0xFFBF_FFFF == w & 0xFFBF_FFFF
  {}

  lemma WriteSWSeesOthers(x: bv32, y: bv32, v: bv32)
    requires x & 0xFFBF_FFFF == y & 0xFFBF_FFFF
    ensures WriteSW(x, v) == WriteSW(y, v)
  {}

  lemma WriteSWTwice(w: bv32, v: bv32, v': bv32)
    requires v < 2
    ensures WriteSW(WriteSW(w, v), v') == WriteSW(w, v')
  {
    WriteSWKeepsOthers(w, v);
    WriteSWSeesOthers(WriteSW(w, v), w, v');
  }

  lemma WriteSWRestores(w: bv32)
    ensures WriteSW(w, ReadSW(w)) == w
  {}

  lemma SetSW(m: Mosquito, v: bv32, v': bv32)
    requires v < 2
    ensures GetSW(WithSW(m, v)) == v
    ensures GetS(WithSW(m, v)) == GetS(m)
    ensures GetFS(WithSW(m, v)) == GetFS(m)
    ensures GetIE(WithSW(m, v)) == GetIE(m)
    ensures GetSD(WithSW(m, v)) == GetSD(m)
    ensures GetST(WithSW(m, v)) == GetST(m)
    ensures GetVD(WithSW(m, v)) == GetVD(m)
    ensures GetC(WithSW(m, v)) == GetC(m)
    ensures WithSW(m, v) == m.(t1 := WithSW(m, v).t1)
    ensures WithSW(WithSW(m, v), v') == WithSW(m, v')
    ensures WithSW(m, GetSW(m)) == m
  {
    WriteSWThenRead(m.t1, v);
    WriteSWTwice(m.t1, v, v');
    WriteSWRestores(m.t1);
  }

  function ReadFS(w: bv32): bv32 {
    (w & 0x0038_0000) >> 19
  }

  function WriteFS(w: bv32, novo: bv32): bv32 {
    (w & 0xFFC7_FFFF) | (novo << 19)
  }

  /** ReadFS and WriteFS use the mask, negative mask and shift tabulated for FS. */
  lemma FSIsTable(w: bv32, novo: bv32)
    ensures ReadFS(w) == (w & PosMask(FS)) >> Shift(FS)
    ensures WriteFS(w, novo) == (w & NegMask(FS)) | (novo << Shift(FS))
  {}

  function GetFS(m: Mosquito): bv32 {
    ReadFS(m.t1)
  }

  function WithFS(m: Mosquito, novo: bv32): Mosquito {
    m.(t1 := WriteFS(m.t1, novo))
  }

  lemma ReadFSFits(w: bv32)
    ensures ReadFS(w) < 8
  {}

  lemma WriteFSThenRead(w: bv32, v: bv32)
    requires v < 8
    ensures ReadFS(WriteFS(w, v)) == v
    ensures ReadS(WriteFS(w, v)) == ReadS(w)
    ensures ReadSW(WriteFS(w, v)) == ReadSW(w)
    ensures ReadIE(WriteFS(w, v)) == ReadIE(w)
    ensures ReadSD(WriteFS(w, v)) == ReadSD(w)
    ensures ReadST(WriteFS(w, v)) == ReadST(w)
    ensures ReadVD(WriteFS(w, v)) == ReadVD(w)
    ensures ReadC(WriteFS(w, v)) == ReadC(w)
  {}

  lemma WriteFSKeepsOthers(w: bv32, v: bv32)
    requires v < 8
    ensures WriteFS(w, v) & 0xFFC7_FFFF == w & 0xFFC7_FFFF
  {}

  lemma WriteFSSeesOthers(x: bv32, y: bv32, v: bv32)
    requires x & 0xFFC7_FFFF == y & 0xFFC7_FFFF
    ensures WriteFS(x, v) == WriteFS(y, v)
  {}

  lemma WriteFSTwice(w: bv32, v: bv32, v': bv32)
    requires v < 8
    ensures WriteFS(WriteFS(w, v), v') == WriteFS(w, v')
  {
    WriteFSKeepsOthers(w, v);
    WriteFSSeesOthers(WriteFS(w, v), w, v');
  }

  lemma WriteFSRestores(w: bv32)
    ensures WriteFS(w, ReadFS(w)) == w
  {}

  lemma SetFS(m: Mosquito, v: bv32, v': bv32)
    requires v < 8
    ensures GetFS(WithFS(m, v)) == v
    ensures GetS(WithFS(m, v)) == GetS(m)
    ensures GetSW(WithFS(m, v)) == GetSW(m)
    ensures GetIE(WithFS(m, v)) == GetIE(m)
    ensures GetSD(WithFS(m, v)) == GetSD(m)
    ensures GetST(WithFS(m, v)) == GetST(m)
    ensures GetVD(WithFS(m, v)) == GetVD(m)
    ensures GetC(WithFS(m, v)) == GetC(m)
    ensures WithFS(m, v) == m.(t1 := WithFS(m, v).t1)
    ensures WithFS(WithFS(m, v), v') == WithFS(m, v')
    ensures WithFS(m, GetFS(m)) == m
  {
    WriteFSThenRead(m.t1, v);
    WriteFSTwice(m.t1, v, v');
    WriteFSRestores(m.t1);
  }

  function ReadIE(w: bv32): bv32 {
    (w & 0x0007_F800) >> 11
  }

  function WriteIE(w: bv32, novo: bv32): bv32 {
    (w & 0xFFF8_07FF) | (novo << 11)
  }

  /** ReadIE and WriteIE use the mask, negative mask and shift tabulated for IE. */
  lemma IEIsTable(w: bv32, novo: bv32)
    ensures ReadIE(w) == (w & PosMask(IE)) >> Shift(IE)
    ensures WriteIE(w, novo) == (w & NegMask(IE)) | (novo << Shift(IE))
  {}

  function GetIE(m: Mosquito): bv32 {
    ReadIE(m.t1)
  }

  function WithIE(m: Mosquito, novo: bv32): Mosquito {
    m.(t1 := WriteIE(m.t1, novo))
  }

  lemma ReadIEFits(w: bv32)
    ensures ReadIE(w) < 256
  {}

  lemma WriteIEThenRead(w: bv32, v: bv32)
    requires v < 256
    ensures ReadIE(WriteIE(w, v)) == v
    ensures ReadS(WriteIE(w, v)) == ReadS(w)
    ensures ReadSW(WriteIE(w, v)) == ReadSW(w)
    ensures ReadFS(WriteIE(w, v)) == ReadFS(w)
    ensures ReadSD(WriteIE(w, v)) == ReadSD(w)
    ensures ReadST(WriteIE(w, v)) == ReadST(w)
    ensures ReadVD(WriteIE(w, v)) == ReadVD(w)
    ensures ReadC(WriteIE(w, v)) == ReadC(w)
  {}

  lemma WriteIEKeepsOthers(w: bv32, v: bv32)
    requires v < 256
    ensures WriteIE(w, v) & 0xFFF8_07FF == w & 0xFFF8_07FF
  {}

  lemma WriteIESeesOthers(x: bv32, y: bv32, v: bv32)
    requires x & 0xFFF8_07FF == y & 0xFFF8_07FF
    ensures WriteIE(x, v) == WriteIE(y, v)
  {}

  lemma WriteIETwice(w: bv32, v: bv32, v': bv32)
    requires v < 256
    ensures WriteIE(WriteIE(w, v), v') == WriteIE(w, v')
  {
    WriteIEKeepsOthers(w, v);
    WriteIESeesOthers(WriteIE(w, v), w, v');
  }

  lemma WriteIERestores(w: bv32)
    ensures WriteIE(w, ReadIE(w)) == w
  {}

  lemma SetIE(m: Mosquito, v: bv32, v': bv32)
    requires v < 256
    ensures GetIE(WithIE(m, v)) == v
    ensures GetS(WithIE(m, v)) == GetS(m)
    ensures GetSW(WithIE(m, v)) == GetSW(m)
    ensures GetFS(WithIE(m, v)) == GetFS(m)
    ensures GetSD(WithIE(m, v)) == GetSD(m)
    ensures GetST(WithIE(m, v)) == GetST(m)
    ensures GetVD(WithIE(m, v)) == GetVD(m)
    ensures GetC(WithIE(m, v)) == GetC(m)
    ensures WithIE(m, v) == m.(t1 := WithIE(m, v).t1)
    ensures WithIE(WithIE(m, v), v') == WithIE(m, v')
    ensures WithIE(m, GetIE(m)) == m
  {
    WriteIEThenRead(m.t1, v);
    WriteIETwice(m.t1, v, v');
    WriteIERestores(m.t1);
  }

  function ReadSD(w: bv32): bv32 {
    (w & 0x0000_0600) >> 9
  }

  function WriteSD(w: bv32, novo: bv32): bv32 {
    (w & 0xFFFF_F9FF) | (novo << 9)
  }

  /** ReadSD and WriteSD use the mask, negative mask and shift tabulated for SD. */
  lemma SDIsTable(w: bv32, novo: bv32)
    ensures ReadSD(w) == (w & PosMask(SD)) >> Shift(SD)
    ensures WriteSD(w, novo) == (w & NegMask(SD)) | (novo << Shift(SD))
  {}

  function GetSD(m: Mosquito): bv32 {
    ReadSD(m.t1)
  }

  function WithSD(m: Mosquito, novo: bv32): Mosquito {
    m.(t1 := WriteSD(m.t1, novo))
  }

  lemma ReadSDFits(w: bv32)
    ensures ReadSD(w) < 4
  {}

  lemma WriteSDThenRead(w: bv32, v: bv32)
    requires v < 4
    ensures ReadSD(WriteSD(w, v)) == v
    ensures ReadS(WriteSD(w, v)) == ReadS(w)
    ensures ReadSW(WriteSD(w, v)) == ReadSW(w)
    ensures ReadFS(WriteSD(w, v)) == ReadFS(w)
    ensures ReadIE(WriteSD(w, v)) == ReadIE(w)
    ensures ReadST(WriteSD(w, v)) == ReadST(w)
    ensures ReadVD(WriteSD(w, v)) == ReadVD(w)
    ensures ReadC(WriteSD(w, v)) == ReadC(w)
  {}

  lemma WriteSDKeepsOthers(w: bv32, v: bv32)
    requires v < 4
    ensures WriteSD(w, v) & 0xFFFF_F9FF == w & 0xFFFF_F9FF
  {}

  lemma WriteSDSeesOthers(x: bv32, y: bv32, v: bv32)
    requires x & 0xFFFF_F9FF == y & 0xFFFF_F9FF
    ensures WriteSD(x, v) == WriteSD(y, v)
  {}

  lemma WriteSDTwice(w: bv32, v: bv32, v': bv32)
    requires v < 4
    ensures WriteSD(WriteSD(w, v), v') == WriteSD(w, v')
  {
    WriteSDKeepsOthers(w, v);
    WriteSDSeesOthers(WriteSD(w, v), w, v');
  }

  lemma WriteSDRestores(w: bv32)
    ensures WriteSD(w, ReadSD(w)) == w
  {}

  lemma SetSD(m: Mosquito, v: bv32, v': bv32)
    requires v < 4
    ensures GetSD(WithSD(m, v)) == v
    ensures GetS(WithSD(m, v)) == GetS(m)
    ensures GetSW(WithSD(m, v)) == GetSW(m)
    ensures GetFS(WithSD(m, v)) == GetFS(m)
    ensures GetIE(WithSD(m, v)) == GetIE(m)
    ensures GetST(WithSD(m, v)) == GetST(m)
    ensures GetVD(WithSD(m, v)) == GetVD(m)
    ensures GetC(WithSD(m, v)) == GetC(m)
    ensures WithSD(m, v) == m.(t1 := WithSD(m, v).t1)
    ensures WithSD(WithSD(m, v), v') == WithSD(m, v')
    ensures WithSD(m, GetSD(m)) == m
  {
    WriteSDThenRead(m.t1, v);
    WriteSDTwice(m.t1, v, v');
    WriteSDRestores(m.t1);
  }

  function ReadST(w: bv32): bv32 {
    (w & 0x0000_01C0) >> 6
  }

  function WriteST(w: bv32, novo: bv32): bv32 {
    (w & 0xFFFF_FE3F) | (novo << 6)
  }

  /** ReadST and WriteST use the mask, negative mask and shift tabulated for ST. */
  lemma STIsTable(w: bv32, novo: bv32)
    ensures ReadST(w) == (w & PosMask(ST)) >> Shift(ST)
    ensures WriteST(w, novo) == (w & NegMask(ST)) | (novo << Shift(ST))
  {}

  function GetST(m: Mosquito): bv32 {
    ReadST(m.t1)
  }

  function WithST(m: Mosquito, novo: bv32): Mosquito {
    m.(t1 := WriteST(m.t1, novo))
  }

  lemma ReadSTFits(w: bv32)
    ensures ReadST(w) < 8
  {}

  lemma WriteSTThenRead(w: bv32, v: bv32)
    requires v < 8
    ensures ReadST(WriteST(w, v)) == v
    ensures ReadS(WriteST(w, v)) == ReadS(w)
    ensures ReadSW(WriteST(w, v)) == ReadSW(w)
    ensures ReadFS(WriteST(w, v)) == ReadFS(w)
    ensures ReadIE(WriteST(w, v)) == ReadIE(w)
    ensures ReadSD(WriteST(w, v)) == ReadSD(w)
    ensures ReadVD(WriteST(w, v)) == ReadVD(w)
    ensures ReadC(WriteST(w, v)) == ReadC(w)
  {}

  lemma WriteSTKeepsOthers(w: bv32, v: bv32)
    requires v < 8
    ensures WriteST(w, v) & 0xFFFF_FE3F == w & 0xFFFF_FE3F
  {}

  lemma WriteSTSeesOthers(x: bv32, y: bv32, v: bv32)
    requires x & 0xFFFF_FE3F == y & 0xFFFF_FE3F
    ensures WriteST(x, v) == WriteST(y, v)
  {}

  lemma WriteSTTwice(w: bv32, v: bv32, v': bv32)
    requires v < 8
    ensures WriteST(WriteST(w, v), v') == WriteST(w, v')
  {
    WriteSTKeepsOthers(w, v);
    WriteSTSeesOthers(WriteST(w, v), w, v');
  }

  lemma WriteSTRestores(w: bv32)
    ensures WriteST(w, ReadST(w)) == w
  {}

  lemma SetST(m: Mosquito, v: bv32, v': bv32)
    requires v < 8
    ensures GetST(WithST(m, v)) == v
    ensures GetS(WithST(m, v)) == GetS(m)
    ensures GetSW(WithST(m, v)) == GetSW(m)
    ensures GetFS(WithST(m, v)) == GetFS(m)
    ensures GetIE(WithST(m, v)) == GetIE(m)
    ensures GetSD(WithST(m, v)) == GetSD(m)
    ensures GetVD(WithST(m, v)) == GetVD(m)
    ensures GetC(WithST(m, v)) == GetC(m)
    ensures WithST(m, v) == m.(t1 := WithST(m, v).t1)
    ensures WithST(WithST(m, v), v') == WithST(m, v')
    ensures WithST(m, GetST(m)) == m
  {
    WriteSTThenRead(m.t1, v);
    WriteSTTwice(m.t1, v, v');
    WriteSTRestores(m.t1);
  }

  function ReadVD(w: bv32): bv32 {
    (w & 0x0000_0020) >> 5
  }

  function WriteVD(w: bv32, novo: bv32): bv32 {
    (w & 0xFFFF_FFDF) | (novo << 5)
  }

  /** ReadVD and WriteVD use the mask, negative mask and shift tabulated for VD. */
  lemma VDIsTable(w: bv32, novo: bv32)
    ensures ReadVD(w) == (w & PosMask(VD)) >> Shift(VD)
    ensures WriteVD(w, novo) == (w & NegMask(VD)) | (novo << Shift(VD))
  {}

  function GetVD(m: Mosquito): bv32 {
    ReadVD(m.t1)
  }

  function WithVD(m: Mosquito, novo: bv32): Mosquito {
    m.(t1 := WriteVD(m.t1, novo))
  }

  lemma ReadVDFits(w: bv32)
    ensures ReadVD(w) < 2
  {}

  lemma WriteVDThenRead(w: bv32, v: bv32)
    requires v < 2
    ensures ReadVD(WriteVD(w, v)) == v
    ensures ReadS(WriteVD(w, v)) == ReadS(w)
    ensures ReadSW(WriteVD(w, v)) == ReadSW(w)
    ensures ReadFS(WriteVD(w, v)) == ReadFS(w)
    ensures ReadIE(WriteVD(w, v)) == ReadIE(w)
    ensures ReadSD(WriteVD(w, v)) == ReadSD(w)
    ensures ReadST(WriteVD(w, v)) == ReadST(w)
    ensures ReadC(WriteVD(w, v)) == ReadC(w)
  {}

  lemma WriteVDKeepsOthers(w: bv32, v: bv32)
    requires v < 2
    ensures WriteVD(w, v) & 0xFFFF_FFDF == w & 0xFFFF_FFDF
  {}

  lemma WriteVDSeesOthers(x: bv32, y: bv32, v: bv32)
    requires x & 0xFFFF_FFDF == y & 0xFFFF_FFDF
    ensures WriteVD(x, v) == WriteVD(y, v)
  {}

  lemma WriteVDTwice(w: bv32, v: bv32, v': bv32)
    requires v < 2
    ensures WriteVD(WriteVD(w, v), v') == WriteVD(w, v')
  {
    WriteVDKeepsOthers(w, v);
    WriteVDSeesOthers(WriteVD(w, v), w, v');
  }

  lemma WriteVDRestores(w: bv32)
    ensures WriteVD(w, ReadVD(w)) == w
  {}

  lemma SetVD(m: Mosquito, v: bv32, v': bv32)
    requires v < 2
    ensures GetVD(WithVD(m, v)) == v
    ensures GetS(WithVD(m, v)) == GetS(m)
    ensures GetSW(WithVD(m, v)) == GetSW(m)
    ensures GetFS(WithVD(m, v)) == GetFS(m)
    ensures GetIE(WithVD(m, v)) == GetIE(m)
    ensures GetSD(WithVD(m, v)) == GetSD(m)
    ensures GetST(WithVD(m, v)) == GetST(m)
    ensures GetC(WithVD(m, v)) == GetC(m)
    ensures WithVD(m, v) == m.(t1 := WithVD(m, v).t1)
    ensures WithVD(WithVD(m, v), v') == WithVD(m, v')
    ensures WithVD(m, GetVD(m)) == m
  {
    WriteVDThenRead(m.t1, v);
    WriteVDTwice(m.t1, v, v');
    WriteVDRestores(m.t1);
  }

  function ReadC(w: bv32): bv32 {
    (w & 0x0000_001F) >> 0
  }

  function WriteC(w: bv32, novo: bv32): bv32 {
    (w & 0xFFFF_FFE0) | (novo << 0)
  }

  /** ReadC and WriteC use the mask, negative mask and shift tabulated for C. */
  lemma CIsTable(w: bv32, novo: bv32)
    ensures ReadC(w) == (w & PosMask(C)) >> Shift(C)
    ensures WriteC(w, novo) == (w & NegMask(C)) | (novo << Shift(C))
  {}

  function GetC(m: Mosquito): bv32 {
    ReadC(m.t1)
  }

  function WithC(m: Mosquito, novo: bv32): Mosquito {
    m.(t1 := WriteC(m.t1, novo))
  }

  lemma ReadCFits(w: bv32)
    ensures ReadC(w) < 32
  {}

  lemma WriteCThenRead(w: bv32, v: bv32)
    requires v < 32
    ensures ReadC(WriteC(w, v)) == v
    ensures ReadS(WriteC(w, v)) == ReadS(w)
    ensures ReadSW(WriteC(w, v)) == ReadSW(w)
    ensures ReadFS(WriteC(w, v)) == ReadFS(w)
    ensures ReadIE(WriteC(w, v)) == ReadIE(w)
    ensures ReadSD(WriteC(w, v)) == ReadSD(w)
    ensures ReadST(WriteC(w, v)) == ReadST(w)
    ensures ReadVD(WriteC(w, v)) == ReadVD(w)
  {}

  lemma WriteCKeepsOthers(w: bv32, v: bv32)
    requires v < 32
    ensures WriteC(w, v) & 0xFFFF_FFE0 == w & 0xFFFF_FFE0
  {}

  lemma WriteCSeesOthers(x: bv32, y: bv32, v: bv32)
    requires x & 0xFFFF_FFE0 == y & 0xFFFF_FFE0
    ensures WriteC(x, v) == WriteC(y, v)
  {}

  lemma WriteCTwice(w: bv32, v: bv32, v': bv32)
    requires v < 32
    ensures WriteC(WriteC(w, v), v') == WriteC(w, v')
  {
    WriteCKeepsOthers(w, v);
    WriteCSeesOthers(WriteC(w, v), w, v');
  }

  lemma WriteCRestores(w: bv32)
    ensures WriteC(w, ReadC(w)) == w
  {}

  lemma SetC(m: Mosquito, v: bv32, v': bv32)
    requires v < 32
    ensures GetC(WithC(m, v)) == v
    ensures GetS(WithC(m, v)) == GetS(m)
    ensures GetSW(WithC(m, v)) == GetSW(m)
    ensures GetFS(WithC(m, v)) == GetFS(m)
    ensures GetIE(WithC(m, v)) == GetIE(m)
    ensures GetSD(WithC(m, v)) == GetSD(m)
    ensures GetST(WithC(m, v)) == GetST(m)
    ensures GetVD(WithC(m, v)) == GetVD(m)
    ensures WithC(m, v) == m.(t1 := WithC(m, v).t1)
    ensures WithC(WithC(m, v), v') == WithC(m, v')
    ensures WithC(m, GetC(m)) == m
  {
    WriteCThenRead(m.t1, v);
    WriteCTwice(m.t1, v, v');
    WriteCRestores(m.t1);
  }

  // ---- word 2

  function ReadCR(w: bv32): bv32 {
    (w & 0x7800_0000) >> 27
  }

  function WriteCR(w: bv32, novo: bv32): bv32 {
    (w & 0x87FF_FFFF) | (novo << 27)
  }

  /** ReadCR and WriteCR use the mask, negative mask and shift tabulated for CR. */
  lemma CRIsTable(w: bv32, novo: bv32)
    ensures ReadCR(w) == (w & PosMask(CR)) >> Shift(CR)
    ensures WriteCR(w, novo) == (w & NegMask(CR)) | (novo << Shift(CR))
  {}

  function GetCR(m: Mosquito): bv32 {
    ReadCR(m.t2)
  }

  function WithCR(m: Mosquito, novo: bv32): Mosquito {
    m.(t2 := WriteCR(m.t2, novo))
  }

  lemma ReadCRFits(w: bv32)
    ensures ReadCR(w) < 16
  {}

  lemma WriteCRThenRead(w: bv32, v: bv32)
    requires v < 16
    ensures ReadCR(WriteCR(w, v)) == v
    ensures ReadFG(WriteCR(w, v)) == ReadFG(w)
    ensures ReadTI(WriteCR(w, v)) == ReadTI(w)
    ensures ReadFM(WriteCR(w, v)) == ReadFM(w)
    ensures ReadFP(WriteCR(w, v)) == ReadFP(w)
    ensures ReadFV(WriteCR(w, v)) == ReadFV(w)
    ensures ReadCG(WriteCR(w, v)) == ReadCG(w)
    ensures ReadCE(WriteCR(w, v)) == ReadCE(w)
    ensures ReadPR(WriteCR(w, v)) == ReadPR(w)
    ensures ReadAM(WriteCR(w, v)) == ReadAM(w)
    ensures ReadTA(WriteCR(w, v)) == ReadTA(w)
    ensures ReadCP(WriteCR(w, v)) == ReadCP(w)
  {}

  lemma WriteCRKeepsOthers(w: bv32, v: bv32)
    requires v < 16
    ensures WriteCR(w, v) & 0x87FF_FFFF == w & 0x87FF_FFFF
  {}

  lemma WriteCRSeesOthers(x: bv32, y: bv32, v: bv32)
    requires x & 0x87FF_FFFF == y & 0x87FF_FFFF
    ensures WriteCR(x, v) == WriteCR(y, v)
  {}

  lemma WriteCRTwice(w: bv32, v: bv32, v': bv32)
    requires v < 16
    ensures WriteCR(WriteCR(w, v), v') == WriteCR(w, v')
  {
    WriteCRKeepsOthers(w, v);
    WriteCRSeesOthers(WriteCR(w, v), w, v');
  }

  lemma WriteCRRestores(w: bv32)
    ensures WriteCR(w, ReadCR(w)) == w
  {}

  lemma SetCR(m: Mosquito, v: bv32, v': bv32)
    requires v < 16
    ensures GetCR(WithCR(m, v)) == v
    ensures GetFG(WithCR(m, v)) == GetFG(m)
    ensures GetTI(WithCR(m, v)) == GetTI(m)
    ensures GetFM(WithCR(m, v)) == GetFM(m)
    ensures GetFP(WithCR(m, v)) == GetFP(m)
    ensures GetFV(WithCR(m, v)) == GetFV(m)
    ensures GetCG(WithCR(m, v)) == GetCG(m)
    ensures GetCE(WithCR(m, v)) == GetCE(m)
    ensures GetPR(WithCR(m, v)) == GetPR(m)
    ensures GetAM(WithCR(m, v)) == GetAM(m)
    ensures GetTA(WithCR(m, v)) == GetTA(m)
    ensures GetCP(WithCR(m, v)) == GetCP(m)
    ensures WithCR(m, v) == m.(t2 := WithCR(m, v).t2)
    ensures WithCR(WithCR(m, v), v') == WithCR(m, v')
    ensures WithCR(m, GetCR(m)) == m
  {
    WriteCRThenRead(m.t2, v);
    WriteCRTwice(m.t2, v, v');
    WriteCRRestores(m.t2);
  }

  function ReadFG(w: bv32): bv32 {
    (w & 0x0400_0000) >> 26
  }

  function WriteFG(w: bv32, novo: bv32): bv32 {
    (w & 0xFBFF_FFFF) | (novo << 26)
  }

  /** ReadFG and WriteFG use the mask, negative mask and shift tabulated for FG. */
  lemma FGIsTable(w: bv32, novo: bv32)
    ensures ReadFG(w) == (w & PosMask(FG)) >> Shift(FG)
    ensures WriteFG(w, novo) == (w & NegMask(FG)) | (novo << Shift(FG))
  {}

  function GetFG(m: Mosquito): bv32 {
    ReadFG(m.t2)
  }

  function WithFG(m: Mosquito, novo: bv32): Mosquito {
    m.(t2 := WriteFG(m.t2, novo))
  }

  lemma ReadFGFits(w: bv32)
    ensures ReadFG(w) < 2
  {}

  lemma WriteFGThenRead(w: bv32, v: bv32)
    requires v < 2
    ensures ReadFG(WriteFG(w, v)) == v
    ensures ReadCR(WriteFG(w, v)) == ReadCR(w)
    ensures ReadTI(WriteFG(w, v)) == ReadTI(w)
    ensures ReadFM(WriteFG(w, v)) == ReadFM(w)
    ensures ReadFP(WriteFG(w, v)) == ReadFP(w)
    ensures ReadFV(WriteFG(w, v)) == ReadFV(w)
    ensures ReadCG(WriteFG(w, v)) == ReadCG(w)
    ensures ReadCE(WriteFG(w, v)) == ReadCE(w)
    ensures ReadPR(WriteFG(w, v)) == ReadPR(w)
    ensures ReadAM(WriteFG(w, v)) == ReadAM(w)
    ensures ReadTA(WriteFG(w, v)) == ReadTA(w)
    ensures ReadCP(WriteFG(w, v)) == ReadCP(w)
  {}

  lemma WriteFGKeepsOthers(w: bv32, v: bv32)
    requires v < 2
    ensures WriteFG(w, v) & 0xFBFF_FFFF == w & 0xFBFF_FFFF
  {}

  lemma WriteFGSeesOthers(x: bv32, y: bv32, v: bv32)
    requires x & 0xFBFF_FFFF == y & 0xFBFF_FFFF
    ensures WriteFG(x, v) == WriteFG(y, v)
  {}

  lemma WriteFGTwice(w: bv32, v: bv32, v': bv32)
    requires v < 2
    ensures WriteFG(WriteFG(w, v), v') == WriteFG(w, v')
  {
    WriteFGKeepsOthers(w, v);
    WriteFGSeesOthers(WriteFG(w, v), w, v');
  }

  lemma WriteFGRestores(w: bv32)
    ensures WriteFG(w, ReadFG(w)) == w
  {}

  lemma SetFG(m: Mosquito, v: bv32, v': bv32)
    requires v < 2
    ensures GetFG(WithFG(m, v)) == v
    ensures GetCR(WithFG(m, v)) == GetCR(m)
    ensures GetTI(WithFG(m, v)) == GetTI(m)
    ensures GetFM(WithFG(m, v)) == GetFM(m)
    ensures GetFP(WithFG(m, v)) == GetFP(m)
    ensures GetFV(WithFG(m, v)) == GetFV(m)
    ensures GetCG(WithFG(m, v)) == GetCG(m)
    ensures GetCE(WithFG(m, v)) == GetCE(m)
    ensures GetPR(WithFG(m, v)) == GetPR(m)
    ensures GetAM(WithFG(m, v)) == GetAM(m)
    ensures GetTA(WithFG(m, v)) == GetTA(m)
    ensures GetCP(WithFG(m, v)) == GetCP(m)
    ensures WithFG(m, v) == m.(t2 := WithFG(m, v).t2)
    ensures WithFG(WithFG(m, v), v') == WithFG(m, v')
    ensures WithFG(m, GetFG(m)) == m
  {
    WriteFGThenRead(m.t2, v);
    WriteFGTwice(m.t2, v, v');
    WriteFGRestores(m.t2);
  }

  function ReadTI(w: bv32): bv32 {
    (w & 0x0300_0000) >> 24
  }

  function WriteTI(w: bv32, novo: bv32): bv32 {
    (w & 0xFCFF_FFFF) | (novo << 24)
  }

  /** ReadTI and WriteTI use the mask, negative mask and shift tabulated for TI. */
  lemma TIIsTable(w: bv32, novo: bv32)
    ensures ReadTI(w) == (w & PosMask(TI)) >> Shift(TI)
    ensures WriteTI(w, novo) == (w & NegMask(TI)) | (novo << Shift(TI))
  {}

  function GetTI(m: Mosquito): bv32 {
    ReadTI(m.t2)
  }

  function WithTI(m: Mosquito, novo: bv32): Mosquito {
    m.(t2 := WriteTI(m.t2, novo))
  }

  lemma ReadTIFits(w: bv32)
    ensures ReadTI(w) < 4
  {}

  lemma WriteTIThenRead(w: bv32, v: bv32)
    requires v < 4
    ensures ReadTI(WriteTI(w, v)) == v
    ensures ReadCR(WriteTI(w, v)) == ReadCR(w)
    ensures ReadFG(WriteTI(w, v)) == ReadFG(w)
    ensures ReadFM(WriteTI(w, v)) == ReadFM(w)
    ensures ReadFP(WriteTI(w, v)) == ReadFP(w)
    ensures ReadFV(WriteTI(w, v)) == ReadFV(w)
    ensures ReadCG(WriteTI(w, v)) == ReadCG(w)
    ensures ReadCE(WriteTI(w, v)) == ReadCE(w)
    ensures ReadPR(WriteTI(w, v)) == ReadPR(w)
    ensures ReadAM(WriteTI(w, v)) == ReadAM(w)
    ensures ReadTA(WriteTI(w, v)) == ReadTA(w)
    ensures ReadCP(WriteTI(w, v)) == ReadCP(w)
  {}

  lemma WriteTIKeepsOthers(w: bv32, v: bv32)
    requires v < 4
    ensures WriteTI(w, v) & 0xFCFF_FFFF == w & 0xFCFF_FFFF
  {}

  lemma WriteTISeesOthers(x: bv32, y: bv32, v: bv32)
    requires x & 0xFCFF_FFFF == y & 0xFCFF_FFFF
    ensures WriteTI(x, v) == WriteTI(y, v)
  {}

  lemma WriteTITwice(w: bv32, v: bv32, v': bv32)
    requires v < 4
    ensures WriteTI(WriteTI(w, v), v') == WriteTI(w, v')
  {
    WriteTIKeepsOthers(w, v);
    WriteTISeesOthers(WriteTI(w, v), w, v');
  }

  lemma WriteTIRestores(w: bv32)
    ensures WriteTI(w, ReadTI(w)) == w
  {}

  lemma SetTI(m: Mosquito, v: bv32, v': bv32)
    requires v < 4
    ensures GetTI(WithTI(m, v)) == v
    ensures GetCR(WithTI(m, v)) == GetCR(m)
    ensures GetFG(WithTI(m, v)) == GetFG(m)
    ensures GetFM(WithTI(m, v)) == GetFM(m)
    ensures GetFP(WithTI(m, v)) == GetFP(m)
    ensures GetFV(WithTI(m, v)) == GetFV(m)
    ensures GetCG(WithTI(m, v)) == GetCG(m)
    ensures GetCE(WithTI(m, v)) == GetCE(m)
    ensures GetPR(WithTI(m, v)) == GetPR(m)
    ensures GetAM(WithTI(m, v)) == GetAM(m)
    ensures GetTA(WithTI(m, v)) == GetTA(m)
    ensures GetCP(WithTI(m, v)) == GetCP(m)
    ensures WithTI(m, v) == m.(t2 := WithTI(m, v).t2)
    ensures WithTI(WithTI(m, v), v') == WithTI(m, v')
    ensures WithTI(m, GetTI(m)) == m
  {
    WriteTIThenRead(m.t2, v);
    WriteTITwice(m.t2, v, v');
    WriteTIRestores(m.t2);
  }

  function ReadFM(w: bv32): bv32 {
    (w & 0x0080_0000) >> 23
  }

  function WriteFM(w: bv32, novo: bv32): bv32 {
    (w & 0xFF7F_FFFF) | (novo << 23)
  }

  /** ReadFM and WriteFM use the mask, negative mask and shift tabulated for FM. */
  lemma FMIsTable(w: bv32, novo: bv32)
    ensures ReadFM(w) == (w & PosMask(FM)) >> Shift(FM)
    ensures WriteFM(w, novo) == (w & NegMask(FM)) | (novo << Shift(FM))
  {}

  function GetFM(m: Mosquito): bv32 {
    ReadFM(m.t2)
  }

  function WithFM(m: Mosquito, novo: bv32): Mosquito {
    m.(t2 := WriteFM(m.t2, novo))
  }

  lemma ReadFMFits(w: bv32)
    ensures ReadFM(w) < 2
  {}

  lemma WriteFMThenRead(w: bv32, v: bv32)
    requires v < 2
    ensures ReadFM(WriteFM(w, v)) == v
    ensures ReadCR(WriteFM(w, v)) == ReadCR(w)
    ensures ReadFG(WriteFM(w, v)) == ReadFG(w)
    ensures ReadTI(WriteFM(w, v)) == ReadTI(w)
    ensures ReadFP(WriteFM(w, v)) == ReadFP(w)
    ensures ReadFV(WriteFM(w, v)) == ReadFV(w)
    ensures ReadCG(WriteFM(w, v)) == ReadCG(w)
    ensures ReadCE(WriteFM(w, v)) == ReadCE(w)
    ensures ReadPR(WriteFM(w, v)) == ReadPR(w)
    ensures ReadAM(WriteFM(w, v)) == ReadAM(w)
    ensures ReadTA(WriteFM(w, v)) == ReadTA(w)
    ensures ReadCP(WriteFM(w, v)) == ReadCP(w)
  {}

  lemma WriteFMKeepsOthers(w: bv32, v: bv32)
    requires v < 2
    ensures WriteFM(w, v) & 0xFF7F_FFFF == w & 0xFF7F_FFFF
  {}

  lemma WriteFMSeesOthers(x: bv32, y: bv32, v: bv32)
    requires x & 0xFF7F_FFFF == y & 0xFF7F_FFFF
    ensures WriteFM(x, v) == WriteFM(y, v)
  {}

  lemma WriteFMTwice(w: bv32, v: bv32, v': bv32)
    requires v < 2
    ensures WriteFM(WriteFM(w, v), v') == WriteFM(w, v')
  {
    WriteFMKeepsOthers(w, v);
    WriteFMSeesOthers(WriteFM(w, v), w, v');
  }

  lemma WriteFMRestores(w: bv32)
    ensures WriteFM(w, ReadFM(w)) == w
  {}

  lemma SetFM(m: Mosquito, v: bv32, v': bv32)
    requires v < 2
    ensures GetFM(WithFM(m, v)) == v
    ensures GetCR(WithFM(m, v)) == GetCR(m)
    ensures GetFG(WithFM(m, v)) == GetFG(m)
    ensures GetTI(WithFM(m, v)) == GetTI(m)
    ensures GetFP(WithFM(m, v)) == GetFP(m)
    ensures GetFV(WithFM(m, v)) == GetFV(m)
    ensures GetCG(WithFM(m, v)) == GetCG(m)
    ensures GetCE(WithFM(m, v)) == GetCE(m)
    ensures GetPR(WithFM(m, v)) == GetPR(m)
    ensures GetAM(WithFM(m, v)) == GetAM(m)
    ensures GetTA(WithFM(m, v)) == GetTA(m)
    ensures GetCP(WithFM(m, v)) == GetCP(m)
    ensures WithFM(m, v) == m.(t2 := WithFM(m, v).t2)
    ensures WithFM(WithFM(m, v), v') == WithFM(m, v')
    ensures WithFM(m, GetFM(m)) == m
  {
    WriteFMThenRead(m.t2, v);
    WriteFMTwice(m.t2, v, v');
    WriteFMRestores(m.t2);
  }

  function ReadFP(w: bv32): bv32 {
    (w & 0x0040_0000) >> 22
  }

  function WriteFP(w: bv32, novo: bv32): bv32 {
    (w & 0xFFBF_FFFF) | (novo << 22)
  }

  /** ReadFP and WriteFP use the mask, negative mask and shift tabulated for FP. */
  lemma FPIsTable(w: bv32, novo: bv32)
    ensures ReadFP(w) == (w & PosMask(FP)) >> Shift(FP)
    ensures WriteFP(w, novo) == (w & NegMask(FP)) | (novo << Shift(FP))
  {}

  function GetFP(m: Mosquito): bv32 {
    ReadFP(m.t2)
  }

  function WithFP(m: Mosquito, novo: bv32): Mosquito {
    m.(t2 := WriteFP(m.t2, novo))
  }

  lemma ReadFPFits(w: bv32)
    ensures ReadFP(w) < 2
  {}

  lemma WriteFPThenRead(w: bv32, v: bv32)
    requires v < 2
    ensures ReadFP(WriteFP(w, v)) == v
    ensures ReadCR(WriteFP(w, v)) == ReadCR(w)
    ensures ReadFG(WriteFP(w, v)) == ReadFG(w)
    ensures ReadTI(WriteFP(w, v)) == ReadTI(w)
    ensures ReadFM(WriteFP(w, v)) == ReadFM(w)
    ensures ReadFV(WriteFP(w, v)) == ReadFV(w)
    ensures ReadCG(WriteFP(w, v)) == ReadCG(w)
    ensures ReadCE(WriteFP(w, v)) == ReadCE(w)
    ensures ReadPR(WriteFP(w, v)) == ReadPR(w)
    ensures ReadAM(WriteFP(w, v)) == ReadAM(w)
    ensures ReadTA(WriteFP(w, v)) == ReadTA(w)
    ensures ReadCP(WriteFP(w, v)) == ReadCP(w)
  {}

  lemma WriteFPKeepsOthers(w: bv32, v: bv32)
    requires v < 2
    ensures WriteFP(w, v) & 0xFFBF_FFFF == w & 0xFFBF_FFFF
  {}

  lemma WriteFPSeesOthers(x: bv32, y: bv32, v: bv32)
    requires x & 0xFFBF_FFFF == y & 0xFFBF_FFFF
    ensures WriteFP(x, v) == WriteFP(y, v)
  {}

  lemma WriteFPTwice(w: bv32, v: bv32, v': bv32)
    requires v < 2
    ensures WriteFP(WriteFP(w, v), v') == WriteFP(w, v')
  {
    WriteFPKeepsOthers(w, v);
    WriteFPSeesOthers(WriteFP(w, v), w, v');
  }

  lemma WriteFPRestores(w: bv32)
    ensures WriteFP(w, ReadFP(w)) == w
  {}

  lemma SetFP(m: Mosquito, v: bv32, v': bv32)
    requires v < 2
    ensures GetFP(WithFP(m, v)) == v
    ensures GetCR(WithFP(m, v)) == GetCR(m)
    ensures GetFG(WithFP(m, v)) == GetFG(m)
    ensures GetTI(WithFP(m, v)) == GetTI(m)
    ensures GetFM(WithFP(m, v)) == GetFM(m)
    ensures GetFV(WithFP(m, v)) == GetFV(m)
    ensures GetCG(WithFP(m, v)) == GetCG(m)
    ensures GetCE(WithFP(m, v)) == GetCE(m)
    ensures GetPR(WithFP(m, v)) == GetPR(m)
    ensures GetAM(WithFP(m, v)) == GetAM(m)
    ensures GetTA(WithFP(m, v)) == GetTA(m)
    ensures GetCP(WithFP(m, v)) == GetCP(m)
    ensures WithFP(m, v) == m.(t2 := WithFP(m, v).t2)
    ensures WithFP(WithFP(m, v), v') == WithFP(m, v')
    ensures WithFP(m, GetFP(m)) == m
  {
    WriteFPThenRead(m.t2, v);
    WriteFPTwice(m.t2, v, v');
    WriteFPRestores(m.t2);
  }

  function ReadFV(w: bv32): bv32 {
    (w & 0x0020_0000) >> 21
  }

  function WriteFV(w: bv32, novo: bv32): bv32 {
    (w & 0xFFDF_FFFF) | (novo << 21)
  }

  /** ReadFV and WriteFV use the mask, negative mask and shift tabulated for FV. */
  lemma FVIsTable(w: bv32, novo: bv32)
    ensures ReadFV(w) == (w & PosMask(FV)) >> Shift(FV)
    ensures WriteFV(w, novo) == (w & NegMask(FV)) | (novo << Shift(FV))
  {}

  function GetFV(m: Mosquito): bv32 {
    ReadFV(m.t2)
  }

  function WithFV(m: Mosquito, novo: bv32): Mosquito {
    m.(t2 := WriteFV(m.t2, novo))
  }

  lemma ReadFVFits(w: bv32)
    ensures ReadFV(w) < 2
  {}

  lemma WriteFVThenRead(w: bv32, v: bv32)
    requires v < 2
    ensures ReadFV(WriteFV(w, v)) == v
    ensures ReadCR(WriteFV(w, v)) == ReadCR(w)
    ensures ReadFG(WriteFV(w, v)) == ReadFG(w)
    ensures ReadTI(WriteFV(w, v)) == ReadTI(w)
    ensures ReadFM(WriteFV(w, v)) == ReadFM(w)
    ensures ReadFP(WriteFV(w, v)) == ReadFP(w)
    ensures ReadCG(WriteFV(w, v)) == ReadCG(w)
    ensures ReadCE(WriteFV(w, v)) == ReadCE(w)
    ensures ReadPR(WriteFV(w, v)) == ReadPR(w)
    ensures ReadAM(WriteFV(w, v)) == ReadAM(w)
    ensures ReadTA(WriteFV(w, v)) == ReadTA(w)
    ensures ReadCP(WriteFV(w, v)) == ReadCP(w)
  {}

  lemma WriteFVKeepsOthers(w: bv32, v: bv32)
    requires v < 2
    ensures WriteFV(w, v) & 0xFFDF_FFFF == w & 0xFFDF_FFFF
  {}

  lemma WriteFVSeesOthers(x: bv32, y: bv32, v: bv32)
    requires x & 0xFFDF_FFFF == y & 0xFFDF_FFFF
    ensures WriteFV(x, v) == WriteFV(y, v)
  {}

  lemma WriteFVTwice(w: bv32, v: bv32, v': bv32)
    requires v < 2
    ensures WriteFV(WriteFV(w, v), v') == WriteFV(w, v')
  {
    WriteFVKeepsOthers(w, v);
    WriteFVSeesOthers(WriteFV(w, v), w, v');
  }

  lemma WriteFVRestores(w: bv32)
    ensures WriteFV(w, ReadFV(w)) == w
  {}

  lemma SetFV(m: Mosquito, v: bv32, v': bv32)
    requires v < 2
    ensures GetFV(WithFV(m, v)) == v
    ensures GetCR(WithFV(m, v)) == GetCR(m)
    ensures GetFG(WithFV(m, v)) == GetFG(m)
    ensures GetTI(WithFV(m, v)) == GetTI(m)
    ensures GetFM(WithFV(m, v)) == GetFM(m)
    ensures GetFP(WithFV(m, v)) == GetFP(m)
    ensures GetCG(WithFV(m, v)) == GetCG(m)
    ensures GetCE(WithFV(m, v)) == GetCE(m)
    ensures GetPR(WithFV(m, v)) == GetPR(m)
    ensures GetAM(WithFV(m, v)) == GetAM(m)
    ensures GetTA(WithFV(m, v)) == GetTA(m)
    ensures GetCP(WithFV(m, v)) == GetCP(m)
    ensures WithFV(m, v) == m.(t2 := WithFV(m, v).t2)
    ensures WithFV(WithFV(m, v), v') == WithFV(m, v')
    ensures WithFV(m, GetFV(m)) == m
  {
    WriteFVThenRead(m.t2, v);
    WriteFVTwice(m.t2, v, v');
    WriteFVRestores(m.t2);
  }

  function ReadCG(w: bv32): bv32 {
    (w & 0x001F_0000) >> 16
  }

  function WriteCG(w: bv32, novo: bv32): bv32 {
    (w & 0xFFE0_FFFF) | (novo << 16)
  }

  /** ReadCG and WriteCG use the mask, negative mask and shift tabulated for CG. */
  lemma CGIsTable(w: bv32, novo: bv32)
    ensures ReadCG(w) == (w & PosMask(CG)) >> Shift(CG)
    ensures WriteCG(w, novo) == (w & NegMask(CG)) | (novo << Shift(CG))
  {}

  function GetCG(m: Mosquito): bv32 {
    ReadCG(m.t2)
  }

  function WithCG(m: Mosquito, novo: bv32): Mosquito {
    m.(t2 := WriteCG(m.t2, novo))
  }

  lemma ReadCGFits(w: bv32)
    ensures ReadCG(w) < 32
  {}

  lemma WriteCGThenRead(w: bv32, v: bv32)
    requires v < 32
    ensures ReadCG(WriteCG(w, v)) == v
    ensures ReadCR(WriteCG(w, v)) == ReadCR(w)
    ensures ReadFG(WriteCG(w, v)) == ReadFG(w)
    ensures ReadTI(WriteCG(w, v)) == ReadTI(w)
    ensures ReadFM(WriteCG(w, v)) == ReadFM(w)
    ensures ReadFP(WriteCG(w, v)) == ReadFP(w)
    ensures ReadFV(WriteCG(w, v)) == ReadFV(w)
    ensures ReadCE(WriteCG(w, v)) == ReadCE(w)
    ensures ReadPR(WriteCG(w, v)) == ReadPR(w)
    ensures ReadAM(WriteCG(w, v)) == ReadAM(w)
    ensures ReadTA(WriteCG(w, v)) == ReadTA(w)
    ensures ReadCP(WriteCG(w, v)) == ReadCP(w)
  {}

  lemma WriteCGKeepsOthers(w: bv32, v: bv32)
    requires v < 32
    ensures WriteCG(w, v) & 0xFFE0_FFFF == w & 0xFFE0_FFFF
  {}

  lemma WriteCGSeesOthers(x: bv32, y: bv32, v: bv32)
    requires x & 0xFFE0_FFFF == y & 0xFFE0_FFFF
    ensures WriteCG(x, v) == WriteCG(y, v)
  {}

  lemma WriteCGTwice(w: bv32, v: bv32, v': bv32)
    requires v < 32
    ensures WriteCG(WriteCG(w, v), v') == WriteCG(w, v')
  {
    WriteCGKeepsOthers(w, v);
    WriteCGSeesOthers(WriteCG(w, v), w, v');
  }

  lemma WriteCGRestores(w: bv32)
    ensures WriteCG(w, ReadCG(w)) == w
  {}

  lemma SetCG(m: Mosquito, v: bv32, v': bv32)
    requires v < 32
    ensures GetCG(WithCG(m, v)) == v
    ensures GetCR(WithCG(m, v)) == GetCR(m)
    ensures GetFG(WithCG(m, v)) == GetFG(m)
    ensures GetTI(WithCG(m, v)) == GetTI(m)
    ensures GetFM(WithCG(m, v)) == GetFM(m)
    ensures GetFP(WithCG(m, v)) == GetFP(m)
    ensures GetFV(WithCG(m, v)) == GetFV(m)
    ensures GetCE(WithCG(m, v)) == GetCE(m)
    ensures GetPR(WithCG(m, v)) == GetPR(m)
    ensures GetAM(WithCG(m, v)) == GetAM(m)
    ensures GetTA(WithCG(m, v)) == GetTA(m)
    ensures GetCP(WithCG(m, v)) == GetCP(m)
    ensures WithCG(m, v) == m.(t2 := WithCG(m, v).t2)
    ensures WithCG(WithCG(m, v), v') == WithCG(m, v')
    ensures WithCG(m, GetCG(m)) == m
  {
    WriteCGThenRead(m.t2, v);
    WriteCGTwice(m.t2, v, v');
    WriteCGRestores(m.t2);
  }

  function ReadCE(w: bv32): bv32 {
    (w & 0x0000_F800) >> 11
  }

  function WriteCE(w: bv32, novo: bv32): bv32 {
    (w & 0xFFFF_07FF) | (novo << 11)
  }

  /** ReadCE and WriteCE use the mask, negative mask and shift tabulated for CE. */
  lemma CEIsTable(w: bv32, novo: bv32)
    ensures ReadCE(w) == (w & PosMask(CE)) >> Shift(CE)
    ensures WriteCE(w, novo) == (w & NegMask(CE)) | (novo << Shift(CE))
  {}

  function GetCE(m: Mosquito): bv32 {
    ReadCE(m.t2)
  }

  function WithCE(m: Mosquito, novo: bv32): Mosquito {
    m.(t2 := WriteCE(m.t2, novo))
  }

  lemma ReadCEFits(w: bv32)
    ensures ReadCE(w) < 32
  {}

  lemma WriteCEThenRead(w: bv32, v: bv32)
    requires v < 32
    ensures ReadCE(WriteCE(w, v)) == v
    ensures ReadCR(WriteCE(w, v)) == ReadCR(w)
    ensures ReadFG(WriteCE(w, v)) == ReadFG(w)
    ensures ReadTI(WriteCE(w, v)) == ReadTI(w)
    ensures ReadFM(WriteCE(w, v)) == ReadFM(w)
    ensures ReadFP(WriteCE(w, v)) == ReadFP(w)
    ensures ReadFV(WriteCE(w, v)) == ReadFV(w)
    ensures ReadCG(WriteCE(w, v)) == ReadCG(w)
    ensures ReadPR(WriteCE(w, v)) == ReadPR(w)
    ensures ReadAM(WriteCE(w, v)) == ReadAM(w)
    ensures ReadTA(WriteCE(w, v)) == ReadTA(w)
    ensures ReadCP(WriteCE(w, v)) == ReadCP(w)
  {}

  lemma WriteCEKeepsOthers(w: bv32, v: bv32)
    requires v < 32
    ensures WriteCE(w, v) & 0xFFFF_07FF == w & 0xFFFF_07FF
  {}

  lemma WriteCESeesOthers(x: bv32, y: bv32, v: bv32)
    requires x & 0xFFFF_07FF == y & 0xFFFF_07FF
    ensures WriteCE(x, v) == WriteCE(y, v)
  {}

  lemma WriteCETwice(w: bv32, v: bv32, v': bv32)
    requires v < 32
    ensures WriteCE(WriteCE(w, v), v') == WriteCE(w, v')
  {
    WriteCEKeepsOthers(w, v);
    WriteCESeesOthers(WriteCE(w, v), w, v');
  }

  lemma WriteCERestores(w: bv32)
    ensures WriteCE(w, ReadCE(w)) == w
  {}

  lemma SetCE(m: Mosquito, v: bv32, v': bv32)
    requires v < 32
    ensures GetCE(WithCE(m, v)) == v
    ensures GetCR(WithCE(m, v)) == GetCR(m)
    ensures GetFG(WithCE(m, v)) == GetFG(m)
    ensures GetTI(WithCE(m, v)) == GetTI(m)
    ensures GetFM(WithCE(m, v)) == GetFM(m)
    ensures GetFP(WithCE(m, v)) == GetFP(m)
    ensures GetFV(WithCE(m, v)) == GetFV(m)
    ensures GetCG(WithCE(m, v)) == GetCG(m)
    ensures GetPR(WithCE(m, v)) == GetPR(m)
    ensures GetAM(WithCE(m, v)) == GetAM(m)
    ensures GetTA(WithCE(m, v)) == GetTA(m)
    ensures GetCP(WithCE(m, v)) == GetCP(m)
    ensures WithCE(m, v) == m.(t2 := WithCE(m, v).t2)
    ensures WithCE(WithCE(m, v), v') == WithCE(m, v')
    ensures WithCE(m, GetCE(m)) == m
  {
    WriteCEThenRead(m.t2, v);
    WriteCETwice(m.t2, v, v');
    WriteCERestores(m.t2);
  }

  function ReadPR(w: bv32): bv32 {
    (w & 0x0000_0700) >> 8
  }

  function WritePR(w: bv32, novo: bv32): bv32 {
    (w & 0xFFFF_F8FF) | (novo << 8)
  }

  /** ReadPR and WritePR use the mask, negative mask and shift tabulated for PR. */
  lemma PRIsTable(w: bv32, novo: bv32)
    ensures ReadPR(w) == (w & PosMask(PR)) >> Shift(PR)
    ensures WritePR(w, novo) == (w & NegMask(PR)) | (novo << Shift(PR))
  {}

  function GetPR(m: Mosquito): bv32 {
    ReadPR(m.t2)
  }

  function WithPR(m: Mosquito, novo: bv32): Mosquito {
    m.(t2 := WritePR(m.t2, novo))
  }

  lemma ReadPRFits(w: bv32)
    ensures ReadPR(w) < 8
  {}

  lemma WritePRThenRead(w: bv32, v: bv32)
    requires v < 8
    ensures ReadPR(WritePR(w, v)) == v
    ensures ReadCR(WritePR(w, v)) == ReadCR(w)
    ensures ReadFG(WritePR(w, v)) == ReadFG(w)
    ensures ReadTI(WritePR(w, v)) == ReadTI(w)
    ensures ReadFM(WritePR(w, v)) == ReadFM(w)
    ensures ReadFP(WritePR(w, v)) == ReadFP(w)
    ensures ReadFV(WritePR(w, v)) == ReadFV(w)
    ensures ReadCG(WritePR(w, v)) == ReadCG(w)
    ensures ReadCE(WritePR(w, v)) == ReadCE(w)
    ensures ReadAM(WritePR(w, v)) == ReadAM(w)
    ensures ReadTA(WritePR(w, v)) == ReadTA(w)
    ensures ReadCP(WritePR(w, v)) == ReadCP(w)
  {}

  lemma WritePRKeepsOthers(w: bv32, v: bv32)
    requires v < 8
    ensures WritePR(w, v) & 0xFFFF_F8FF == w & 0xFFFF_F8FF
  {}

  lemma WritePRSeesOthers(x: bv32, y: bv32, v: bv32)
    requires x & 0xFFFF_F8FF == y & 0xFFFF_F8FF
    ensures WritePR(x, v) == WritePR(y, v)
  {}

  lemma WritePRTwice(w: bv32, v: bv32, v': bv32)
    requires v < 8
    ensures WritePR(WritePR(w, v), v') == WritePR(w, v')
  {
    WritePRKeepsOthers(w, v);
    WritePRSeesOthers(WritePR(w, v), w, v');
  }

  lemma WritePRRestores(w: bv32)
    ensures WritePR(w, ReadPR(w)) == w
  {}

  lemma SetPR(m: Mosquito, v: bv32, v': bv32)
    requires v < 8
    ensures GetPR(WithPR(m, v)) == v
    ensures GetCR(WithPR(m, v)) == GetCR(m)
    ensures GetFG(WithPR(m, v)) == GetFG(m)
    ensures GetTI(WithPR(m, v)) == GetTI(m)
    ensures GetFM(WithPR(m, v)) == GetFM(m)
    ensures GetFP(WithPR(m, v)) == GetFP(m)
    ensures GetFV(WithPR(m, v)) == GetFV(m)
    ensures GetCG(WithPR(m, v)) == GetCG(m)
    ensures GetCE(WithPR(m, v)) == GetCE(m)
    ensures GetAM(WithPR(m, v)) == GetAM(m)
    ensures GetTA(WithPR(m, v)) == GetTA(m)
    ensures GetCP(WithPR(m, v)) == GetCP(m)
    ensures WithPR(m, v) == m.(t2 := WithPR(m, v).t2)
    ensures WithPR(WithPR(m, v), v') == WithPR(m, v')
    ensures WithPR(m, GetPR(m)) == m
  {
    WritePRThenRead(m.t2, v);
    WritePRTwice(m.t2, v, v');
    WritePRRestores(m.t2);
  }

  function ReadAM(w: bv32): bv32 {
    (w & 0x0000_0080) >> 7
  }

  function WriteAM(w: bv32, novo: bv32): bv32 {
    (w & 0xFFFF_FF7F) | (novo << 7)
  }

  /** ReadAM and WriteAM use the mask, negative mask and shift tabulated for AM. */
  lemma AMIsTable(w: bv32, novo: bv32)
    ensures ReadAM(w) == (w & PosMask(AM)) >> Shift(AM)
    ensures WriteAM(w, novo) == (w & NegMask(AM)) | (novo << Shift(AM))
  {}

  function GetAM(m: Mosquito): bv32 {
    ReadAM(m.t2)
  }

  function WithAM(m: Mosquito, novo: bv32): Mosquito {
    m.(t2 := WriteAM(m.t2, novo))
  }

  lemma ReadAMFits(w: bv32)
    ensures ReadAM(w) < 2
  {}

  lemma WriteAMThenRead(w: bv32, v: bv32)
    requires v < 2
    ensures ReadAM(WriteAM(w, v)) == v
    ensures ReadCR(WriteAM(w, v)) == ReadCR(w)
    ensures ReadFG(WriteAM(w, v)) == ReadFG(w)
    ensures ReadTI(WriteAM(w, v)) == ReadTI(w)
    ensures ReadFM(WriteAM(w, v)) == ReadFM(w)
    ensures ReadFP(WriteAM(w, v)) == ReadFP(w)
    ensures ReadFV(WriteAM(w, v)) == ReadFV(w)
    ensures ReadCG(WriteAM(w, v)) == ReadCG(w)
    ensures ReadCE(WriteAM(w, v)) == ReadCE(w)
    ensures ReadPR(WriteAM(w, v)) == ReadPR(w)
    ensures ReadTA(WriteAM(w, v)) == ReadTA(w)
    ensures ReadCP(WriteAM(w, v)) == ReadCP(w)
  {}

  lemma WriteAMKeepsOthers(w: bv32, v: bv32)
    requires v < 2
    ensures WriteAM(w, v) & 0xFFFF_FF7F == w & 0xFFFF_FF7F
  {}

  lemma WriteAMSeesOthers(x: bv32, y: bv32, v: bv32)
    requires x & 0xFFFF_FF7F == y & 0xFFFF_FF7F
    ensures WriteAM(x, v) == WriteAM(y, v)
  {}

  lemma WriteAMTwice(w: bv32, v: bv32, v': bv32)
    requires v < 2
    ensures WriteAM(WriteAM(w, v), v') == WriteAM(w, v')
  {
    WriteAMKeepsOthers(w, v);
    WriteAMSeesOthers(WriteAM(w, v), w, v');
  }

  lemma WriteAMRestores(w: bv32)
    ensures WriteAM(w, ReadAM(w)) == w
  {}

  lemma SetAM(m: Mosquito, v: bv32, v': bv32)
    requires v < 2
    ensures GetAM(WithAM(m, v)) == v
    ensures GetCR(WithAM(m, v)) == GetCR(m)
    ensures GetFG(WithAM(m, v)) == GetFG(m)
    ensures GetTI(WithAM(m, v)) == GetTI(m)
    ensures GetFM(WithAM(m, v)) == GetFM(m)
    ensures GetFP(WithAM(m, v)) == GetFP(m)
    ensures GetFV(WithAM(m, v)) == GetFV(m)
    ensures GetCG(WithAM(m, v)) == GetCG(m)
    ensures GetCE(WithAM(m, v)) == GetCE(m)
    ensures GetPR(WithAM(m, v)) == GetPR(m)
    ensures GetTA(WithAM(m, v)) == GetTA(m)
    ensures GetCP(WithAM(m, v)) == GetCP(m)
    ensures WithAM(m, v) == m.(t2 := WithAM(m, v).t2)
    ensures WithAM(WithAM(m, v), v') == WithAM(m, v')
    ensures WithAM(m, GetAM(m)) == m
  {
    WriteAMThenRead(m.t2, v);
    WriteAMTwice(m.t2, v, v');
    WriteAMRestores(m.t2);
  }

  function ReadTA(w: bv32): bv32 {
    (w & 0x0000_0060) >> 5
  }

  function WriteTA(w: bv32, novo: bv32): bv32 {
    (w & 0xFFFF_FF9F) | (novo << 5)
  }

  /** ReadTA and WriteTA use the mask, negative mask and shift tabulated for TA. */
  lemma TAIsTable(w: bv32, novo: bv32)
    ensures ReadTA(w) == (w & PosMask(TA)) >> Shift(TA)
    ensures WriteTA(w, novo) == (w & NegMask(TA)) | (novo << Shift(TA))
  {}

  function GetTA(m: Mosquito): bv32 {
    ReadTA(m.t2)
  }

  function WithTA(m: Mosquito, novo: bv32): Mosquito {
    m.(t2 := WriteTA(m.t2, novo))
  }

  lemma ReadTAFits(w: bv32)
    ensures ReadTA(w) < 4
  {}

  lemma WriteTAThenRead(w: bv32, v: bv32)
    requires v < 4
    ensures ReadTA(WriteTA(w, v)) == v
    ensures ReadCR(WriteTA(w, v)) == ReadCR(w)
    ensures ReadFG(WriteTA(w, v)) == ReadFG(w)
    ensures ReadTI(WriteTA(w, v)) == ReadTI(w)
    ensures ReadFM(WriteTA(w, v)) == ReadFM(w)
    ensures ReadFP(WriteTA(w, v)) == ReadFP(w)
    ensures ReadFV(WriteTA(w, v)) == ReadFV(w)
    ensures ReadCG(WriteTA(w, v)) == ReadCG(w)
    ensures ReadCE(WriteTA(w, v)) == ReadCE(w)
    ensures ReadPR(WriteTA(w, v)) == ReadPR(w)
    ensures ReadAM(WriteTA(w, v)) == ReadAM(w)
    ensures ReadCP(WriteTA(w, v)) == ReadCP(w)
  {}

  lemma WriteTAKeepsOthers(w: bv32, v: bv32)
    requires v < 4
    ensures WriteTA(w, v) & 0xFFFF_FF9F == w & 0xFFFF_FF9F
  {}

  lemma WriteTASeesOthers(x: bv32, y: bv32, v: bv32)
    requires x & 0xFFFF_FF9F == y & 0xFFFF_FF9F
    ensures WriteTA(x, v) == WriteTA(y, v)
  {}

  lemma WriteTATwice(w: bv32, v: bv32, v': bv32)
    requires v < 4
    ensures WriteTA(WriteTA(w, v), v') == WriteTA(w, v')
  {
    WriteTAKeepsOthers(w, v);
    WriteTASeesOthers(WriteTA(w, v), w, v');
  }

  lemma WriteTARestores(w: bv32)
    ensures WriteTA(w, ReadTA(w)) == w
  {}

  lemma SetTA(m: Mosquito, v: bv32, v': bv32)
    requires v < 4
    ensures GetTA(WithTA(m, v)) == v
    ensures GetCR(WithTA(m, v)) == GetCR(m)
    ensures GetFG(WithTA(m, v)) == GetFG(m)
    ensures GetTI(WithTA(m, v)) == GetTI(m)
    ensures GetFM(WithTA(m, v)) == GetFM(m)
    ensures GetFP(WithTA(m, v)) == GetFP(m)
    ensures GetFV(WithTA(m, v)) == GetFV(m)
    ensures GetCG(WithTA(m, v)) == GetCG(m)
    ensures GetCE(WithTA(m, v)) == GetCE(m)
    ensures GetPR(WithTA(m, v)) == GetPR(m)
    ensures GetAM(WithTA(m, v)) == GetAM(m)
    ensures GetCP(WithTA(m, v)) == GetCP(m)
    ensures WithTA(m, v) == m.(t2 := WithTA(m, v).t2)
    ensures WithTA(WithTA(m, v), v') == WithTA(m, v')
    ensures WithTA(m, GetTA(m)) == m
  {
    WriteTAThenRead(m.t2, v);
    WriteTATwice(m.t2, v, v');
    WriteTARestores(m.t2);
  }

  function ReadCP(w: bv32): bv32 {
    (w & 0x0000_001F) >> 0
  }

  function WriteCP(w: bv32, novo: bv32): bv32 {
    (w & 0xFFFF_FFE0) | (novo << 0)
  }

  /** ReadCP and WriteCP use the mask, negative mask and shift tabulated for CP. */
  lemma CPIsTable(w: bv32, novo: bv32)
    ensures ReadCP(w) == (w & PosMask(CP)) >> Shift(CP)
    ensures WriteCP(w, novo) == (w & NegMask(CP)) | (novo << Shift(CP))
  {}

  function GetCP(m: Mosquito): bv32 {
    ReadCP(m.t2)
  }

  function WithCP(m: Mosquito, novo: bv32): Mosquito {
    m.(t2 := WriteCP(m.t2, novo))
  }

  lemma ReadCPFits(w: bv32)
    ensures ReadCP(w) < 32
  {}

  lemma WriteCPThenRead(w: bv32, v: bv32)
    requires v < 32
    ensures ReadCP(WriteCP(w, v)) == v
    ensures ReadCR(WriteCP(w, v)) == ReadCR(w)
    ensures ReadFG(WriteCP(w, v)) == ReadFG(w)
    ensures ReadTI(WriteCP(w, v)) == ReadTI(w)
    ensures ReadFM(WriteCP(w, v)) == ReadFM(w)
    ensures ReadFP(WriteCP(w, v)) == ReadFP(w)
    ensures ReadFV(WriteCP(w, v)) == ReadFV(w)
    ensures ReadCG(WriteCP(w, v)) == ReadCG(w)
    ensures ReadCE(WriteCP(w, v)) == ReadCE(w)
    ensures ReadPR(WriteCP(w, v)) == ReadPR(w)
    ensures ReadAM(WriteCP(w, v)) == ReadAM(w)
    ensures ReadTA(WriteCP(w, v)) == ReadTA(w)
  {}

  lemma WriteCPKeepsOthers(w: bv32, v: bv32)
    requires v < 32
    ensures WriteCP(w, v) & 0xFFFF_FFE0 == w & 0xFFFF_FFE0
  {}

  lemma WriteCPSeesOthers(x: bv32, y: bv32, v: bv32)
    requires x & 0xFFFF_FFE0 == y & 0xFFFF_FFE0
    ensures WriteCP(x, v) == WriteCP(y, v)
  {}

  lemma WriteCPTwice(w: bv32, v: bv32, v': bv32)
    requires v < 32
    ensures WriteCP(WriteCP(w, v), v') == WriteCP(w, v')
  {
    WriteCPKeepsOthers(w, v);
    WriteCPSeesOthers(WriteCP(w, v), w, v');
  }

  lemma WriteCPRestores(w: bv32)
    ensures WriteCP(w, ReadCP(w)) == w
  {}

  lemma SetCP(m: Mosquito, v: bv32, v': bv32)
    requires v < 32
    ensures GetCP(WithCP(m, v)) == v
    ensures GetCR(WithCP(m, v)) == GetCR(m)
    ensures GetFG(WithCP(m, v)) == GetFG(m)
    ensures GetTI(WithCP(m, v)) == GetTI(m)
    ensures GetFM(WithCP(m, v)) == GetFM(m)
    ensures GetFP(WithCP(m, v)) == GetFP(m)
    ensures GetFV(WithCP(m, v)) == GetFV(m)
    ensures GetCG(WithCP(m, v)) == GetCG(m)
    ensures GetCE(WithCP(m, v)) == GetCE(m)
    ensures GetPR(WithCP(m, v)) == GetPR(m)
    ensures GetAM(WithCP(m, v)) == GetAM(m)
    ensures GetTA(WithCP(m, v)) == GetTA(m)
    ensures WithCP(m, v) == m.(t2 := WithCP(m, v).t2)
    ensures WithCP(WithCP(m, v), v') == WithCP(m, v')
    ensures WithCP(m, GetCP(m)) == m
  {
    WriteCPThenRead(m.t2, v);
    WriteCPTwice(m.t2, v, v');
    WriteCPRestores(m.t2);
  }

  // ---- word 3

  function ReadX(w: bv32): bv32 {
    (w & 0xFFFF_E000) >> 13
  }

  function WriteX(w: bv32, novo: bv32): bv32 {
    (w & 0x0000_1FFF) | (novo << 13)
  }

  /** ReadX and WriteX use the mask, negative mask and shift tabulated for X. */
  lemma XIsTable(w: bv32, novo: bv32)
    ensures ReadX(w) == (w & PosMask(X)) >> Shift(X)
    ensures WriteX(w, novo) == (w & NegMask(X)) | (novo << Shift(X))
  {}

  function GetX(m: Mosquito): bv32 {
    ReadX(m.t3)
  }

  function WithX(m: Mosquito, novo: bv32): Mosquito {
    m.(t3 := WriteX(m.t3, novo))
  }

  lemma ReadXFits(w: bv32)
    ensures ReadX(w) < 524288
  {}

  lemma WriteXThenRead(w: bv32, v: bv32)
    requires v < 524288
    ensures ReadX(WriteX(w, v)) == v
    ensures ReadL(WriteX(w, v)) == ReadL(w)
  {}

  lemma WriteXKeepsOthers(w: bv32, v: bv32)
    requires v < 524288
    ensures WriteX(w, v) & 0x0000_1FFF == w & 0x0000_1FFF
  {}

  lemma WriteXSeesOthers(x: bv32, y: bv32, v: bv32)
    requires x & 0x0000_1FFF == y & 0x0000_1FFF
    ensures WriteX(x, v) == WriteX(y, v)
  {}

  lemma WriteXTwice(w: bv32, v: bv32, v': bv32)
    requires v < 524288
    ensures WriteX(WriteX(w, v), v') == WriteX(w, v')
  {
    WriteXKeepsOthers(w, v);
    WriteXSeesOthers(WriteX(w, v), w, v');
  }

  lemma WriteXRestores(w: bv32)
    ensures WriteX(w, ReadX(w)) == w
  {}

  lemma SetX(m: Mosquito, v: bv32, v': bv32)
    requires v < 524288
    ensures GetX(WithX(m, v)) == v
    ensures GetL(WithX(m, v)) == GetL(m)
    ensures WithX(m, v) == m.(t3 := WithX(m, v).t3)
    ensures WithX(WithX(m, v), v') == WithX(m, v')
    ensures WithX(m, GetX(m)) == m
  {
    WriteXThenRead(m.t3, v);
    WriteXTwice(m.t3, v, v');
    WriteXRestores(m.t3);
  }

  function ReadL(w: bv32): bv32 {
    (w & 0x0000_1FFF) >> 0
  }

  function WriteL(w: bv32, novo: bv32): bv32 {
    (w & 0xFFFF_E000) | (novo << 0)
  }

  /** ReadL and WriteL use the mask, negative mask and shift tabulated for L. */
  lemma LIsTable(w: bv32, novo: bv32)
    ensures ReadL(w) == (w & PosMask(L)) >> Shift(L)
    ensures WriteL(w, novo) == (w & NegMask(L)) | (novo << Shift(L))
  {}

  function GetL(m: Mosquito): bv32 {
    ReadL(m.t3)
  }

  function WithL(m: Mosquito, novo: bv32): Mosquito {
    m.(t3 := WriteL(m.t3, novo))
  }

  lemma ReadLFits(w: bv32)
    ensures ReadL(w) < 8192
  {}

  lemma WriteLThenRead(w: bv32, v: bv32)
    requires v < 8192
    ensures ReadL(WriteL(w, v)) == v
    ensures ReadX(WriteL(w, v)) == ReadX(w)
  {}

  lemma WriteLKeepsOthers(w: bv32, v: bv32)
    requires v < 8192
    ensures WriteL(w, v) & 0xFFFF_E000 == w & 0xFFFF_E000
  {}

  lemma WriteLSeesOthers(x: bv32, y: bv32, v: bv32)
    requires x & 0xFFFF_E000 == y & 0xFFFF_E000
    ensures WriteL(x, v) == WriteL(y, v)
  {}

  lemma WriteLTwice(w: bv32, v: bv32, v': bv32)
    requires v < 8192
    ensures WriteL(WriteL(w, v), v') == WriteL(w, v')
  {
    WriteLKeepsOthers(w, v);
    WriteLSeesOthers(WriteL(w, v), w, v');
  }

  lemma WriteLRestores(w: bv32)
    ensures WriteL(w, ReadL(w)) == w
  {}

  lemma SetL(m: Mosquito, v: bv32, v': bv32)
    requires v < 8192
    ensures GetL(WithL(m, v)) == v
    ensures GetX(WithL(m, v)) == GetX(m)
    ensures WithL(m, v) == m.(t3 := WithL(m, v).t3)
    ensures WithL(WithL(m, v), v') == WithL(m, v')
    ensures WithL(m, GetL(m)) == m
  {
    WriteLThenRead(m.t3, v);
    WriteLTwice(m.t3, v, v');
    WriteLRestores(m.t3);
  }

  // ---- word 4

  function ReadY(w: bv32): bv32 {
    (w & 0xFFFF_FE00) >> 9
  }

  function WriteY(w: bv32, novo: bv32): bv32 {
    (w & 0x0000_01FF) | (novo << 9)
  }

  /** ReadY and WriteY use the mask, negative mask and shift tabulated for Y. */
  lemma YIsTable(w: bv32, novo: bv32)
    ensures ReadY(w) == (w & PosMask(Y)) >> Shift(Y)
    ensures WriteY(w, novo) == (w & NegMask(Y)) | (novo << Shift(Y))
  {}

  function GetY(m: Mosquito): bv32 {
    ReadY(m.t4)
  }

  function WithY(m: Mosquito, novo: bv32): Mosquito {
    m.(t4 := WriteY(m.t4, novo))
  }

  lemma ReadYFits(w: bv32)
    ensures ReadY(w) < 8388608
  {}

  lemma WriteYThenRead(w: bv32, v: bv32)
    requires v < 8388608
    ensures ReadY(WriteY(w, v)) == v
    ensures ReadQ(WriteY(w, v)) == ReadQ(w)
  {}

  lemma WriteYKeepsOthers(w: bv32, v: bv32)
    requires v < 8388608
    ensures WriteY(w, v) & 0x0000_01FF == w & 0x0000_01FF
  {}

  lemma WriteYSeesOthers(x: bv32, y: bv32, v: bv32)
    requires x & 0x0000_01FF == y & 0x0000_01FF
    ensures WriteY(x, v) == WriteY(y, v)
  {}

  lemma WriteYTwice(w: bv32, v: bv32, v': bv32)
    requires v < 8388608
    ensures WriteY(WriteY(w, v), v') == WriteY(w, v')
  {
    WriteYKeepsOthers(w, v);
    WriteYSeesOthers(WriteY(w, v), w, v');
  }

  lemma WriteYRestores(w: bv32)
    ensures WriteY(w, ReadY(w)) == w
  {}

  lemma SetY(m: Mosquito, v: bv32, v': bv32)
    requires v < 8388608
    ensures GetY(WithY(m, v)) == v
    ensures GetQ(WithY(m, v)) == GetQ(m)
    ensures WithY(m, v) == m.(t4 := WithY(m, v).t4)
    ensures WithY(WithY(m, v), v') == WithY(m, v')
    ensures WithY(m, GetY(m)) == m
  {
    WriteYThenRead(m.t4, v);
    WriteYTwice(m.t4, v, v');
    WriteYRestores(m.t4);
  }

  function ReadQ(w: bv32): bv32 {
    (w & 0x0000_01FF) >> 0
  }

  function WriteQ(w: bv32, novo: bv32): bv32 {
    (w & 0xFFFF_FE00) | (novo << 0)
  }

  /** ReadQ and WriteQ use the mask, negative mask and shift tabulated for Q. */
  lemma QIsTable(w: bv32, novo: bv32)
    ensures ReadQ(w) == (w & PosMask(Q)) >> Shift(Q)
    ensures WriteQ(w, novo) == (w & NegMask(Q)) | (novo << Shift(Q))
  {}

  function GetQ(m: Mosquito): bv32 {
    ReadQ(m.t4)
  }

  function WithQ(m: Mosquito, novo: bv32): Mosquito {
    m.(t4 := WriteQ(m.t4, novo))
  }

  lemma ReadQFits(w: bv32)
    ensures ReadQ(w) < 512
  {}

  lemma WriteQThenRead(w: bv32, v: bv32)
    requires v < 512
    ensures ReadQ(WriteQ(w, v)) == v
    ensures ReadY(WriteQ(w, v)) == ReadY(w)
  {}

  lemma WriteQKeepsOthers(w: bv32, v: bv32)
    requires v < 512
    ensures WriteQ(w, v) & 0xFFFF_FE00 == w & 0xFFFF_FE00
  {}

  lemma WriteQSeesOthers(x: bv32, y: bv32, v: bv32)
    requires x & 0xFFFF_FE00 == y & 0xFFFF_FE00
    ensures WriteQ(x, v) == WriteQ(y, v)
  {}

  lemma WriteQTwice(w: bv32, v: bv32, v': bv32)
    requires v < 512
    ensures WriteQ(WriteQ(w, v), v') == WriteQ(w, v')
  {
    WriteQKeepsOthers(w, v);
    WriteQSeesOthers(WriteQ(w, v), w, v');
  }

  lemma WriteQRestores(w: bv32)
    ensures WriteQ(w, ReadQ(w)) == w
  {}

  lemma SetQ(m: Mosquito, v: bv32, v': bv32)
    requires v < 512
    ensures GetQ(WithQ(m, v)) == v
    ensures GetY(WithQ(m, v)) == GetY(m)
    ensures WithQ(m, v) == m.(t4 := WithQ(m, v).t4)
    ensures WithQ(WithQ(m, v), v') == WithQ(m, v')
    ensures WithQ(m, GetQ(m)) == m
  {
    WriteQThenRead(m.t4, v);
    WriteQTwice(m.t4, v, v');
    WriteQRestores(m.t4);
  }

  /** The spare top 8 bits of word 1 aside, word 1 is exactly its attributes put back in place. */
  lemma Tira1Tiles(m: Mosquito)
    ensures m.t1 & 0x00FF_FFFF ==
      (GetS(m) << 23) | (GetSW(m) << 22) | (GetFS(m) << 19) |
      (GetIE(m) << 11) | (GetSD(m) << 9) | (GetST(m) << 6) |
      (GetVD(m) << 5) | (GetC(m) << 0)
  {}

  /** The spare top bit aside, word 2 is exactly its attributes put back in place. */
  lemma Tira2Tiles(m: Mosquito)
    ensures m.t2 & 0x7FFF_FFFF ==
      (GetCR(m) << 27) | (GetFG(m) << 26) | (GetTI(m) << 24) |
      (GetFM(m) << 23) | (GetFP(m) << 22) | (GetFV(m) << 21) |
      (GetCG(m) << 16) | (GetCE(m) << 11) | (GetPR(m) << 8) |
      (GetAM(m) << 7) | (GetTA(m) << 5) | (GetCP(m) << 0)
  {}

  /** Words 3 and 4 are exactly their two attributes put back in place. */
  lemma Tira34Tiles(m: Mosquito)
    ensures m.t3 == (GetX(m) << 13) | (GetL(m) << 0)
    ensures m.t4 == (GetY(m) << 9) | (GetQ(m) << 0)
  {}

  /**
   * The setter does not mask its argument: a value one too large for the
   * counter C spills into the life bit VD above it.
   */
  lemma OversizedValueSpills(m: Mosquito)
    requires GetVD(m) == 0
    ensures GetVD(WithC(m, 32)) == 1
  {}

  // ------------------------------------------------------------ by attribute name
  //
  // GET_M(i, t, ma, a) and SET_M(i, t, novo, nm, a) take the word, the mask
  // and the shift as arguments; Get and WithField select the word of the
  // attribute and apply that attribute's read or write to it.

  /** The read of attribute f applied to a word of its record. */
  function Read(w: bv32, f: Field): bv32 {
    match f
    case S => ReadS(w)
    case SW => ReadSW(w)
    case FS => ReadFS(w)
    case IE => ReadIE(w)
    case SD => ReadSD(w)
    case ST => ReadST(w)
    case VD => ReadVD(w)
    case C => ReadC(w)
    case CR => ReadCR(w)
    case FG => ReadFG(w)
    case TI => ReadTI(w)
    case FM => ReadFM(w)
    case FP => ReadFP(w)
    case FV => ReadFV(w)
    case CG => ReadCG(w)
    case CE => ReadCE(w)
    case PR => ReadPR(w)
    case AM => ReadAM(w)
    case TA => ReadTA(w)
    case CP => ReadCP(w)
    case X => ReadX(w)
    case L => ReadL(w)
    case Y => ReadY(w)
    case Q => ReadQ(w)
  }

  /** The write of attribute f applied to a word of its record. */
  function Write(w: bv32, f: Field, novo: bv32): bv32 {
    match f
    case S => WriteS(w, novo)
    case SW => WriteSW(w, novo)
    case FS => WriteFS(w, novo)
    case IE => WriteIE(w, novo)
    case SD => WriteSD(w, novo)
    case ST => WriteST(w, novo)
    case VD => WriteVD(w, novo)
    case C => WriteC(w, novo)
    case CR => WriteCR(w, novo)
    case FG => WriteFG(w, novo)
    case TI => WriteTI(w, novo)
    case FM => WriteFM(w, novo)
    case FP => WriteFP(w, novo)
    case FV => WriteFV(w, novo)
    case CG => WriteCG(w, novo)
    case CE => WriteCE(w, novo)
    case PR => WritePR(w, novo)
    case AM => WriteAM(w, novo)
    case TA => WriteTA(w, novo)
    case CP => WriteCP(w, novo)
    case X => WriteX(w, novo)
    case L => WriteL(w, novo)
    case Y => WriteY(w, novo)
    case Q => WriteQ(w, novo)
  }

  /** The value of attribute f. */
  function Get(m: Mosquito, f: Field): bv32 {
    Read(WordOf(m, TiraOf(f)), f)
  }

  /** The record after writing novo into attribute f. */
  function WithField(m: Mosquito, f: Field, novo: bv32): Mosquito {
    WithWord(m, TiraOf(f), Write(WordOf(m, TiraOf(f)), f, novo))
  }

  // For each attribute X, XByName and XReadBackByName restate XIsTable and
  // the word-level facts about WriteX through Read and Write, for an f that
  // is X; the lemmas by attribute name below pick the ones for their f.

  lemma SByName(w: bv32, f: Field, novo: bv32)
    requires f == S
    ensures Read(w, f) == (w & PosMask(f)) >> Shift(f)
    ensures Write(w, f, novo) == (w & NegMask(f)) | (novo << Shift(f))
  {
    SIsTable(w, novo);
  }

  lemma SReadBackByName(w: bv32, f: Field, v: bv32, v': bv32)
    requires f == S && v < Limit(f)
    ensures Read(Write(w, f, v), f) == v
    ensures Write(Write(w, f, v), f, v') == Write(w, f, v')
    ensures Write(w, f, Read(w, f)) == w
  {
    WriteSThenRead(w, v);
    WriteSTwice(w, v, v');
    WriteSRestores(w);
  }

  lemma SWByName(w: bv32, f: Field, novo: bv32)
    requires f == SW
    ensures Read(w, f) == (w & PosMask(f)) >> Shift(f)
    ensures Write(w, f, novo) == (w & NegMask(f)) | (novo << Shift(f))
  {
    SWIsTable(w, novo);
  }

  lemma SWReadBackByName(w: bv32, f: Field, v: bv32, v': bv32)
    requires f == SW && v < Limit(f)
    ensures Read(Write(w, f, v), f) == v
    ensures Write(Write(w, f, v), f, v') == Write(w, f, v')
    ensures Write(w, f, Read(w, f)) == w
  {
    WriteSWThenRead(w, v);
    WriteSWTwice(w, v, v');
    WriteSWRestores(w);
  }

  lemma FSByName(w: bv32, f: Field, novo: bv32)
    requires f == FS
    ensures Read(w, f) == (w & PosMask(f)) >> Shift(f)
    ensures Write(w, f, novo) == (w & NegMask(f)) | (novo << Shift(f))
  {
    FSIsTable(w, novo);
  }

  lemma FSReadBackByName(w: bv32, f: Field, v: bv32, v': bv32)
    requires f == FS && v < Limit(f)
    ensures Read(Write(w, f, v), f) == v
    ensures Write(Write(w, f, v), f, v') == Write(w, f, v')
    ensures Write(w, f, Read(w, f)) == w
  {
    WriteFSThenRead(w, v);
    WriteFSTwice(w, v, v');
    WriteFSRestores(w);
  }

  lemma IEByName(w: bv32, f: Field, novo: bv32)
    requires f == IE
    ensures Read(w, f) == (w & PosMask(f)) >> Shift(f)
    ensures Write(w, f, novo) == (w & NegMask(f)) | (novo << Shift(f))
  {
    IEIsTable(w, novo);
  }

  lemma IEReadBackByName(w: bv32, f: Field, v: bv32, v': bv32)
    requires f == IE && v < Limit(f)
    ensures Read(Write(w, f, v), f) == v
    ensures Write(Write(w, f, v), f, v') == Write(w, f, v')
    ensures Write(w, f, Read(w, f)) == w
  {
    WriteIEThenRead(w, v);
    WriteIETwice(w, v, v');
    WriteIERestores(w);
  }

  lemma SDByName(w: bv32, f: Field, novo: bv32)
    requires f == SD
    ensures Read(w, f) == (w & PosMask(f)) >> Shift(f)
    ensures Write(w, f, novo) == (w & NegMask(f)) | (novo << Shift(f))
  {
    SDIsTable(w, novo);
  }

  lemma SDReadBackByName(w: bv32, f: Field, v: bv32, v': bv32)
    requires f == SD && v < Limit(f)
    ensures Read(Write(w, f, v), f) == v
    ensures Write(Write(w, f, v), f, v') == Write(w, f, v')
    ensures Write(w, f, Read(w, f)) == w
  {
    WriteSDThenRead(w, v);
    WriteSDTwice(w, v, v');
    WriteSDRestores(w);
  }

  lemma STByName(w: bv32, f: Field, novo: bv32)
    requires f == ST
    ensures Read(w, f) == (w & PosMask(f)) >> Shift(f)
    ensures Write(w, f, novo) == (w & NegMask(f)) | (novo << Shift(f))
  {
    STIsTable(w, novo);
  }

  lemma STReadBackByName(w: bv32, f: Field, v: bv32, v': bv32)
    requires f == ST && v < Limit(f)
    ensures Read(Write(w, f, v), f) == v
    ensures Write(Write(w, f, v), f, v') == Write(w, f, v')
    ensures Write(w, f, Read(w, f)) == w
  {
    WriteSTThenRead(w, v);
    WriteSTTwice(w, v, v');
    WriteSTRestores(w);
  }

  lemma VDByName(w: bv32, f: Field, novo: bv32)
    requires f == VD
    ensures Read(w, f) == (w & PosMask(f)) >> Shift(f)
    ensures Write(w, f, novo) == (w & NegMask(f)) | (novo << Shift(f))
  {
    VDIsTable(w, novo);
  }

  lemma VDReadBackByName(w: bv32, f: Field, v: bv32, v': bv32)
    requires f == VD && v < Limit(f)
    ensures Read(Write(w, f, v), f) == v
    ensures Write(Write(w, f, v), f, v') == Write(w, f, v')
    ensures Write(w, f, Read(w, f)) == w
  {
    WriteVDThenRead(w, v);
    WriteVDTwice(w, v, v');
    WriteVDRestores(w);
  }

  lemma CByName(w: bv32, f: Field, novo: bv32)
    requires f == C
    ensures Read(w, f) == (w & PosMask(f)) >> Shift(f)
    ensures Write(w, f, novo) == (w & NegMask(f)) | (novo << Shift(f))
  {
    CIsTable(w, novo);
  }

  lemma CReadBackByName(w: bv32, f: Field, v: bv32, v': bv32)
    requires f == C && v < Limit(f)
    ensures Read(Write(w, f, v), f) == v
    ensures Write(Write(w, f, v), f, v') == Write(w, f, v')
    ensures Write(w, f, Read(w, f)) == w
  {
    WriteCThenRead(w, v);
    WriteCTwice(w, v, v');
    WriteCRestores(w);
  }

  lemma CRByName(w: bv32, f: Field, novo: bv32)
    requires f == CR
    ensures Read(w, f) == (w & PosMask(f)) >> Shift(f)
    ensures Write(w, f, novo) == (w & NegMask(f)) | (novo << Shift(f))
  {
    CRIsTable(w, novo);
  }

  lemma CRReadBackByName(w: bv32, f: Field, v: bv32, v': bv32)
    requires f == CR && v < Limit(f)
    ensures Read(Write(w, f, v), f) == v
    ensures Write(Write(w, f, v), f, v') == Write(w, f, v')
    ensures Write(w, f, Read(w, f)) == w
  {
    WriteCRThenRead(w, v);
    WriteCRTwice(w, v, v');
    WriteCRRestores(w);
  }

  lemma FGByName(w: bv32, f: Field, novo: bv32)
    requires f == FG
    ensures Read(w, f) == (w & PosMask(f)) >> Shift(f)
    ensures Write(w, f, novo) == (w & NegMask(f)) | (novo << Shift(f))
  {
    FGIsTable(w, novo);
  }

  lemma FGReadBackByName(w: bv32, f: Field, v: bv32, v': bv32)
    requires f == FG && v < Limit(f)
    ensures Read(Write(w, f, v), f) == v
    ensures Write(Write(w, f, v), f, v') == Write(w, f, v')
    ensures Write(w, f, Read(w, f)) == w
  {
    WriteFGThenRead(w, v);
    WriteFGTwice(w, v, v');
    WriteFGRestores(w);
  }

  lemma TIByName(w: bv32, f: Field, novo: bv32)
    requires f == TI
    ensures Read(w, f) == (w & PosMask(f)) >> Shift(f)
    ensures Write(w, f, novo) == (w & NegMask(f)) | (novo << Shift(f))
  {
    TIIsTable(w, novo);
  }

  lemma TIReadBackByName(w: bv32, f: Field, v: bv32, v': bv32)
    requires f == TI && v < Limit(f)
    ensures Read(Write(w, f, v), f) == v
    ensures Write(Write(w, f, v), f, v') == Write(w, f, v')
    ensures Write(w, f, Read(w, f)) == w
  {
    WriteTIThenRead(w, v);
    WriteTITwice(w, v, v');
    WriteTIRestores(w);
  }

  lemma FMByName(w: bv32, f: Field, novo: bv32)
    requires f == FM
    ensures Read(w, f) == (w & PosMask(f)) >> Shift(f)
    ensures Write(w, f, novo) == (w & NegMask(f)) | (novo << Shift(f))
  {
    FMIsTable(w, novo);
  }

  lemma FMReadBackByName(w: bv32, f: Field, v: bv32, v': bv32)
    requires f == FM && v < Limit(f)
    ensures Read(Write(w, f, v), f) == v
    ensures Write(Write(w, f, v), f, v') == Write(w, f, v')
    ensures Write(w, f, Read(w, f)) == w
  {
    WriteFMThenRead(w, v);
    WriteFMTwice(w, v, v');
    WriteFMRestores(w);
  }

  lemma FPByName(w: bv32, f: Field, novo: bv32)
    requires f == FP
    ensures Read(w, f) == (w & PosMask(f)) >> Shift(f)
    ensures Write(w, f, novo) == (w & NegMask(f)) | (novo << Shift(f))
  {
    FPIsTable(w, novo);
  }

  lemma FPReadBackByName(w: bv32, f: Field, v: bv32, v': bv32)
    requires f == FP && v < Limit(f)
    ensures Read(Write(w, f, v), f) == v
    ensures Write(Write(w, f, v), f, v') == Write(w, f, v')
    ensures Write(w, f, Read(w, f)) == w
  {
    WriteFPThenRead(w, v);
    WriteFPTwice(w, v, v');
    WriteFPRestores(w);
  }

  lemma FVByName(w: bv32, f: Field, novo: bv32)
    requires f == FV
    ensures Read(w, f) == (w & PosMask(f)) >> Shift(f)
    ensures Write(w, f, novo) == (w & NegMask(f)) | (novo << Shift(f))
  {
    FVIsTable(w, novo);
  }

  lemma FVReadBackByName(w: bv32, f: Field, v: bv32, v': bv32)
    requires f == FV && v < Limit(f)
    ensures Read(Write(w, f, v), f) == v
    ensures Write(Write(w, f, v), f, v') == Write(w, f, v')
    ensures Write(w, f, Read(w, f)) == w
  {
    WriteFVThenRead(w, v);
    WriteFVTwice(w, v, v');
    WriteFVRestores(w);
  }

  lemma CGByName(w: bv32, f: Field, novo: bv32)
    requires f == CG
    ensures Read(w, f) == (w & PosMask(f)) >> Shift(f)
    ensures Write(w, f, novo) == (w & NegMask(f)) | (novo << Shift(f))
  {
    CGIsTable(w, novo);
  }

  lemma CGReadBackByName(w: bv32, f: Field, v: bv32, v': bv32)
    requires f == CG && v < Limit(f)
    ensures Read(Write(w, f, v), f) == v
    ensures Write(Write(w, f, v), f, v') == Write(w, f, v')
    ensures Write(w, f, Read(w, f)) == w
  {
    WriteCGThenRead(w, v);
    WriteCGTwice(w, v, v');
    WriteCGRestores(w);
  }

  lemma CEByName(w: bv32, f: Field, novo: bv32)
    requires f == CE
    ensures Read(w, f) == (w & PosMask(f)) >> Shift(f)
    ensures Write(w, f, novo) == (w & NegMask(f)) | (novo << Shift(f))
  {
    CEIsTable(w, novo);
  }

  lemma CEReadBackByName(w: bv32, f: Field, v: bv32, v': bv32)
    requires f == CE && v < Limit(f)
    ensures Read(Write(w, f, v), f) == v
    ensures Write(Write(w, f, v), f, v') == Write(w, f, v')
    ensures Write(w, f, Read(w, f)) == w
  {
    WriteCEThenRead(w, v);
    WriteCETwice(w, v, v');
    WriteCERestores(w);
  }

  lemma PRByName(w: bv32, f: Field, novo: bv32)
    requires f == PR
    ensures Read(w, f) == (w & PosMask(f)) >> Shift(f)
    ensures Write(w, f, novo) == (w & NegMask(f)) | (novo << Shift(f))
  {
    PRIsTable(w, novo);
  }

  lemma PRReadBackByName(w: bv32, f: Field, v: bv32, v': bv32)
    requires f == PR && v < Limit(f)
    ensures Read(Write(w, f, v), f) == v
    ensures Write(Write(w, f, v), f, v') == Write(w, f, v')
    ensures Write(w, f, Read(w, f)) == w
  {
    WritePRThenRead(w, v);
    WritePRTwice(w, v, v');
    WritePRRestores(w);
  }

  lemma AMByName(w: bv32, f: Field, novo: bv32)
    requires f == AM
    ensures Read(w, f) == (w & PosMask(f)) >> Shift(f)
    ensures Write(w, f, novo) == (w & NegMask(f)) | (novo << Shift(f))
  {
    AMIsTable(w, novo);
  }

  lemma AMReadBackByName(w: bv32, f: Field, v: bv32, v': bv32)
    requires f == AM && v < Limit(f)
    ensures Read(Write(w, f, v), f) == v
    ensures Write(Write(w, f, v), f, v') == Write(w, f, v')
    ensures Write(w, f, Read(w, f)) == w
  {
    WriteAMThenRead(w, v);
    WriteAMTwice(w, v, v');
    WriteAMRestores(w);
  }

  lemma TAByName(w: bv32, f: Field, novo: bv32)
    requires f == TA
    ensures Read(w, f) == (w & PosMask(f)) >> Shift(f)
    ensures Write(w, f, novo) == (w & NegMask(f)) | (novo << Shift(f))
  {
    TAIsTable(w, novo);
  }

  lemma TAReadBackByName(w: bv32, f: Field, v: bv32, v': bv32)
    requires f == TA && v < Limit(f)
    ensures Read(Write(w, f, v), f) == v
    ensures Write(Write(w, f, v), f, v') == Write(w, f, v')
    ensures Write(w, f, Read(w, f)) == w
  {
    WriteTAThenRead(w, v);
    WriteTATwice(w, v, v');
    WriteTARestores(w);
  }

  lemma CPByName(w: bv32, f: Field, novo: bv32)
    requires f == CP
    ensures Read(w, f) == (w & PosMask(f)) >> Shift(f)
    ensures Write(w, f, novo) == (w & NegMask(f)) | (novo << Shift(f))
  {
    CPIsTable(w, novo);
  }

  lemma CPReadBackByName(w: bv32, f: Field, v: bv32, v': bv32)
    requires f == CP && v < Limit(f)
    ensures Read(Write(w, f, v), f) == v
    ensures Write(Write(w, f, v), f, v') == Write(w, f, v')
    ensures Write(w, f, Read(w, f)) == w
  {
    WriteCPThenRead(w, v);
    WriteCPTwice(w, v, v');
    WriteCPRestores(w);
  }

  lemma XByName(w: bv32, f: Field, novo: bv32)
    requires f == X
    ensures Read(w, f) == (w & PosMask(f)) >> Shift(f)
    ensures Write(w, f, novo) == (w & NegMask(f)) | (novo << Shift(f))
  {
    XIsTable(w, novo);
  }

  lemma XReadBackByName(w: bv32, f: Field, v: bv32, v': bv32)
    requires f == X && v < Limit(f)
    ensures Read(Write(w, f, v), f) == v
    ensures Write(Write(w, f, v), f, v') == Write(w, f, v')
    ensures Write(w, f, Read(w, f)) == w
  {
    WriteXThenRead(w, v);
    WriteXTwice(w, v, v');
    WriteXRestores(w);
  }

  lemma LByName(w: bv32, f: Field, novo: bv32)
    requires f == L
    ensures Read(w, f) == (w & PosMask(f)) >> Shift(f)
    ensures Write(w, f, novo) == (w & NegMask(f)) | (novo << Shift(f))
  {
    LIsTable(w, novo);
  }

  lemma LReadBackByName(w: bv32, f: Field, v: bv32, v': bv32)
    requires f == L && v < Limit(f)
    ensures Read(Write(w, f, v), f) == v
    ensures Write(Write(w, f, v), f, v') == Write(w, f, v')
    ensures Write(w, f, Read(w, f)) == w
  {
    WriteLThenRead(w, v);
    WriteLTwice(w, v, v');
    WriteLRestores(w);
  }

  lemma YByName(w: bv32, f: Field, novo: bv32)
    requires f == Y
    ensures Read(w, f) == (w & PosMask(f)) >> Shift(f)
    ensures Write(w, f, novo) == (w & NegMask(f)) | (novo << Shift(f))
  {
    YIsTable(w, novo);
  }

  lemma YReadBackByName(w: bv32, f: Field, v: bv32, v': bv32)
    requires f == Y && v < Limit(f)
    ensures Read(Write(w, f, v), f) == v
    ensures Write(Write(w, f, v), f, v') == Write(w, f, v')
    ensures Write(w, f, Read(w, f)) == w
  {
    WriteYThenRead(w, v);
    WriteYTwice(w, v, v');
    WriteYRestores(w);
  }

  lemma QByName(w: bv32, f: Field, novo: bv32)
    requires f == Q
    ensures Read(w, f) == (w & PosMask(f)) >> Shift(f)
    ensures Write(w, f, novo) == (w & NegMask(f)) | (novo << Shift(f))
  {
    QIsTable(w, novo);
  }

  lemma QReadBackByName(w: bv32, f: Field, v: bv32, v': bv32)
    requires f == Q && v < Limit(f)
    ensures Read(Write(w, f, v), f) == v
    ensures Write(Write(w, f, v), f, v') == Write(w, f, v')
    ensures Write(w, f, Read(w, f)) == w
  {
    WriteQThenRead(w, v);
    WriteQTwice(w, v, v');
    WriteQRestores(w);
  }

  /** Read and Write use the tabulated masks and shift of their attribute. */
  lemma ReadWriteIsTable(w: bv32, f: Field, novo: bv32)
    ensures Read(w, f) == (w & PosMask(f)) >> Shift(f)
    ensures Write(w, f, novo) == (w & NegMask(f)) | (novo << Shift(f))
  {
    match f
    case S => SByName(w, f, novo);
    case SW => SWByName(w, f, novo);
    case FS => FSByName(w, f, novo);
    case IE => IEByName(w, f, novo);
    case SD => SDByName(w, f, novo);
    case ST => STByName(w, f, novo);
    case VD => VDByName(w, f, novo);
    case C => CByName(w, f, novo);
    case CR => CRByName(w, f, novo);
    case FG => FGByName(w, f, novo);
    case TI => TIByName(w, f, novo);
    case FM => FMByName(w, f, novo);
    case FP => FPByName(w, f, novo);
    case FV => FVByName(w, f, novo);
    case CG => CGByName(w, f, novo);
    case CE => CEByName(w, f, novo);
    case PR => PRByName(w, f, novo);
    case AM => AMByName(w, f, novo);
    case TA => TAByName(w, f, novo);
    case CP => CPByName(w, f, novo);
    case X => XByName(w, f, novo);
    case L => LByName(w, f, novo);
    case Y => YByName(w, f, novo);
    case Q => QByName(w, f, novo);
  }

  /**
   * On a word: a value below the limit is read back, a second write
   * overrides the first and writing back the value read changes nothing.
   */
  lemma WriteThenRead(w: bv32, f: Field, v: bv32, v': bv32)
    requires v < Limit(f)
    ensures Read(Write(w, f, v), f) == v
    ensures Write(Write(w, f, v), f, v') == Write(w, f, v')
    ensures Write(w, f, Read(w, f)) == w
  {
    match f
    case S => SReadBackByName(w, f, v, v');
    case SW => SWReadBackByName(w, f, v, v');
    case FS => FSReadBackByName(w, f, v, v');
    case IE => IEReadBackByName(w, f, v, v');
    case SD => SDReadBackByName(w, f, v, v');
    case ST => STReadBackByName(w, f, v, v');
    case VD => VDReadBackByName(w, f, v, v');
    case C => CReadBackByName(w, f, v, v');
    case CR => CRReadBackByName(w, f, v, v');
    case FG => FGReadBackByName(w, f, v, v');
    case TI => TIReadBackByName(w, f, v, v');
    case FM => FMReadBackByName(w, f, v, v');
    case FP => FPReadBackByName(w, f, v, v');
    case FV => FVReadBackByName(w, f, v, v');
    case CG => CGReadBackByName(w, f, v, v');
    case CE => CEReadBackByName(w, f, v, v');
    case PR => PRReadBackByName(w, f, v, v');
    case AM => AMReadBackByName(w, f, v, v');
    case TA => TAReadBackByName(w, f, v, v');
    case CP => CPReadBackByName(w, f, v, v');
    case X => XReadBackByName(w, f, v, v');
    case L => LReadBackByName(w, f, v, v');
    case Y => YReadBackByName(w, f, v, v');
    case Q => QReadBackByName(w, f, v, v');
  }
  /**
   * GET_M and SET_M by attribute name use the tables: attribute f is its
   * word under the positive mask, shifted down; a write replaces that word,
   * and only that word, by the old word cleared with the negative mask and
   * or'd with the value shifted up.
   */
  lemma FieldIsTable(m: Mosquito, f: Field, novo: bv32)
    ensures Get(m, f) == (WordOf(m, TiraOf(f)) & PosMask(f)) >> Shift(f)
    ensures WithField(m, f, novo) ==
      WithWord(m, TiraOf(f), (WordOf(m, TiraOf(f)) & NegMask(f)) | (novo << Shift(f)))
  {
    ReadWriteIsTable(WordOf(m, TiraOf(f)), f, novo);
  }

  /**
   * By attribute name: a value below the limit is read back; the id, the other
   * three words and every attribute stored in them are kept; a second write
   * overrides the first; writing back the value read changes nothing.
   */
  lemma WithFieldReadBack(m: Mosquito, f: Field, v: bv32, v': bv32)
    requires v < Limit(f)
    ensures Get(WithField(m, f, v), f) == v
    ensures WithField(m, f, v).id == m.id
    ensures forall t :: t != TiraOf(f) ==> WordOf(WithField(m, f, v), t) == WordOf(m, t)
    ensures forall g :: TiraOf(g) != TiraOf(f) ==> Get(WithField(m, f, v), g) == Get(m, g)
    ensures WithField(WithField(m, f, v), f, v') == WithField(m, f, v')
    ensures WithField(m, f, Get(m, f)) == m
  {
    var w := WordOf(m, TiraOf(f));
    WriteThenRead(w, f, v, v');
    WithWordTwice(m, TiraOf(f), Write(w, f, v), Write(Write(w, f, v), f, v'));
    WithWordSame(m, TiraOf(f));
  }

  /** GET_M and the GET_*_M(i) macros: attribute f of element i of the array. */
  function GetAt(mosquitos: array<Mosquito>, i: nat, f: Field): bv32
    reads mosquitos
    requires i < mosquitos.Length
  {
    Get(mosquitos[i], f)
  }

  /** GET_ID_M(i): the identifier of element i of the array. */
  function GetIdAt(mosquitos: array<Mosquito>, i: nat): bv32
    reads mosquitos
    requires i < mosquitos.Length
  {
    mosquitos[i].id
  }

  /** SET_M and the SET_*_M(i, novo) macros: rewrites one word of element i in place. */
  method SetAt(mosquitos: array<Mosquito>, i: nat, f: Field, novo: int)
    requires i < mosquitos.Length
    modifies mosquitos
    ensures mosquitos[..] == old(mosquitos[..])[i := WithField(old(mosquitos[i]), f, Unsigned(novo))]
    ensures mosquitos[i].id == old(mosquitos[i].id)
    ensures Unsigned(novo) < Limit(f) ==> GetAt(mosquitos, i, f) == Unsigned(novo)
  {
    ghost var before := mosquitos[i];
    mosquitos[i] := WithField(mosquitos[i], f, Unsigned(novo));
    if Unsigned(novo) < Limit(f) {
      WithFieldReadBack(before, f, Unsigned(novo), Unsigned(novo));
    }
  }

  /** SET_ID_M(i, novo): overwrites the identifier of element i and nothing else. */
  method SetIdAt(mosquitos: array<Mosquito>, i: nat, novo: int)
    requires i < mosquitos.Length
    modifies mosquitos
    ensures mosquitos[..] == old(mosquitos[..])[i := old(mosquitos[i]).(id := Unsigned(novo))]
  {
    mosquitos[i] := mosquitos[i].(id := Unsigned(novo));
  }

}
