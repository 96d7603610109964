/**
 * The bit-packed human record of the GPU simulator. The attributes are route
 * (R), path (T), movement flag (F), movement counter (M) and movement kind (K)
 * in word 1; blood meals (CR), sex (S), age group (FE), dengue status (SD),
 * current serotype (ST), serotypes contracted (SC), asymptomatic (A), state
 * transition counter (C) and vaccine counter (CV) in word 2; latitude and lot
 * (X, L) in word 3; longitude and block (Y, Q) in word 4.
 */
module HumanBits {
  import opened Packed

  type Human = Record

  /** One constructor per attribute, named after the macro suffix. */
  datatype Field =
    | R | T | F | M | K
    | CR | S | FE | SD | ST | SC | A | C | CV
    | X | L
    | Y | Q

  /** The word each attribute lives in. */
  function TiraOf(f: Field): Tira {
    match f
    case R | T | F | M | K => T1
    case CR | S | FE | SD | ST | SC | A | C | CV => T2
    case X | L => T3
    case Y | Q => T4
  }

  /** TH_*: the width of each attribute in bits. */
  function Width(f: Field): (r: bv32)
    ensures 0 < r < 32
  {
    match f
    case R => 3
    case T => 16
    case F => 1
    case M => 10
    case K => 2
    case CR => 3
    case S => 1
    case FE => 3
    case SD => 3
    case ST => 3
    case SC => 4
    case A => 1
    case C => 8
    case CV => 2
    case X => 19
    case L => 13
    case Y => 23
    case Q => 9
  }

  /** AH_*: the number of bits below each attribute. */
  function Shift(f: Field): (r: bv32)
    ensures r < 32
  {
    match f
    case R => 29
    case T => 13
    case F => 12
    case M => 2
    case K => 0
    case CR => 25
    case S => 24
    case FE => 21
    case SD => 18
    case ST => 15
    case SC => 11
    case A => 10
    case C => 2
    case CV => 0
    case X => 13
    case L => 0
    case Y => 9
    case Q => 0
  }

  /** MAH_*: the positive masks. */
  function PosMask(f: Field): bv32
  {
    match f
    case R => 0xE000_0000
    case T => 0x1FFF_E000
    case F => 0x0000_1000
    case M => 0x0000_0FFC
    case K => 0x0000_0003
    case CR => 0x0E00_0000
    case S => 0x0100_0000
    case FE => 0x00E0_0000
    case SD => 0x001C_0000
    case ST => 0x0003_8000
    case SC => 0x0000_7800
    case A => 0x0000_0400
    case C => 0x0000_03FC
    case CV => 0x0000_0003
    case X => 0xFFFF_E000
    case L => 0x0000_1FFF
    case Y => 0xFFFF_FE00
    case Q => 0x0000_01FF
  }

  /** NMH_*: the negative masks. */
  function NegMask(f: Field): bv32
  {
    match f
    case R => 0x1FFF_FFFF
    case T => 0xE000_1FFF
    case F => 0xFFFF_EFFF
    case M => 0xFFFF_F003
    case K => 0xFFFF_FFFC
    case CR => 0xF1FF_FFFF
    case S => 0xFEFF_FFFF
    case FE => 0xFF1F_FFFF
    case SD => 0xFFE3_FFFF
    case ST => 0xFFFC_7FFF
    case SC => 0xFFFF_87FF
    case A => 0xFFFF_FBFF
    case C => 0xFFFF_FC03
    case CV => 0xFFFF_FFFC
    case X => 0x0000_1FFF
    case L => 0xFFFF_E000
    case Y => 0x0000_01FF
    case Q => 0xFFFF_FE00
  }

  /** 2^TH_f: the number of values each attribute can hold. */
  function Limit(f: Field): bv32
  {
    match f
    case R => 8
    case T => 65536
    case F => 2
    case M => 1024
    case K => 4
    case CR => 8
    case S => 2
    case FE => 8
    case SD => 8
    case ST => 8
    case SC => 16
    case A => 2
    case C => 256
    case CV => 4
    case X => 524288
    case L => 8192
    case Y => 8388608
    case Q => 512
  }

  /** Each positive mask is (2^W - 1) << S for the attribute's width W and shift S. */
  lemma PosMaskLayout(f: Field)
    ensures Fits(Shift(f), Width(f)) && PosMask(f) == FieldMask(Shift(f), Width(f))
  {
    match f
    case R =>
    case T =>
    case F =>
    case M =>
    case K =>
    case CR =>
    case S =>
    case FE =>
    case SD =>
    case ST =>
    case SC =>
    case A =>
    case C =>
    case CV =>
    case X =>
    case L =>
    case Y =>
    case Q =>
  }

  /** Each negative mask is the complement of the positive one. */
  lemma NegMaskLayout(f: Field)
    ensures NegMask(f) == !PosMask(f)
  {
    match f
    case R =>
    case T =>
    case F =>
    case M =>
    case K =>
    case CR =>
    case S =>
    case FE =>
    case SD =>
    case ST =>
    case SC =>
    case A =>
    case C =>
    case CV =>
    case X =>
    case L =>
    case Y =>
    case Q =>
  }

  /** The limit is 2 to the power of the width. */
  lemma LimitLayout(f: Field)
    ensures Limit(f) == (1 as bv32) << Width(f)
  {
    match f
    case R =>
    case T =>
    case F =>
    case M =>
    case K =>
    case CR =>
    case S =>
    case FE =>
    case SD =>
    case ST =>
    case SC =>
    case A =>
    case C =>
    case CV =>
    case X =>
    case L =>
    case Y =>
    case Q =>
  }

  /** Within each word the attributes are adjacent, listed from the top bit down. */
  lemma Adjacent()
    ensures Shift(R) + Width(R) == 32
    ensures Shift(R) == Shift(T) + Width(T)
    ensures Shift(T) == Shift(F) + Width(F)
    ensures Shift(F) == Shift(M) + Width(M)
    ensures Shift(M) == Shift(K) + Width(K)
    ensures Shift(K) == 0
    ensures Shift(CR) + Width(CR) == 28
    ensures Shift(CR) == Shift(S) + Width(S)
    ensures Shift(S) == Shift(FE) + Width(FE)
    ensures Shift(FE) == Shift(SD) + Width(SD)
    ensures Shift(SD) == Shift(ST) + Width(ST)
    ensures Shift(ST) == Shift(SC) + Width(SC)
    ensures Shift(SC) == Shift(A) + Width(A)
    ensures Shift(A) == Shift(C) + Width(C)
    ensures Shift(C) == Shift(CV) + Width(CV)
    ensures Shift(CV) == 0
    ensures Shift(X) + Width(X) == 32
    ensures Shift(X) == Shift(L) + Width(L)
    ensures Shift(L) == 0
    ensures Shift(Y) + Width(Y) == 32
    ensures Shift(Y) == Shift(Q) + Width(Q)
    ensures Shift(Q) == 0
  {}

  // ------------------------------------------------------------ attributes
  //
  // For each attribute F: ReadF is GET_H with F's word, positive mask and
  // shift (mask, then shift down); WriteF is SET_H with F's negative mask
  // and shift (clear, then or in the value shifted up; the value itself is
  // not masked). GetF and WithF apply them to the attribute's word of a
  // record, as GET_F_H_ and SET_F_H do. The lemma SetF states that a
  // value that fits is read back, that the other attributes of the same word
  // and the other words keep their values, that a second write overrides a
  // first one, and that writing back the value just read changes nothing.

  // ---- word 1

  function ReadR(w: bv32): bv32 {
    (w & 0xE000_0000) >> 29
  }

  function WriteR(w: bv32, novo: bv32): bv32 {
    (w & 0x1FFF_FFFF) | (novo << 29)
  }

  /** ReadR and WriteR use the mask, negative mask and shift tabulated for R. */
  lemma RIsTable(w: bv32, novo: bv32)
    ensures ReadR(w) == (w & PosMask(R)) >> Shift(R)
    ensures WriteR(w, novo) == (w & NegMask(R)) | (novo << Shift(R))
  {}

  function GetR(h: Human): bv32 {
    ReadR(h.t1)
  }

  function WithR(h: Human, novo: bv32): Human {
    h.(t1 := WriteR(h.t1, novo))
  }

  lemma ReadRFits(w: bv32)
    ensures ReadR(w) < 8
  {}

  lemma WriteRThenRead(w: bv32, v: bv32)
    requires v < 8
    ensures ReadR(WriteR(w, v)) == v
    ensures ReadT(WriteR(w, v)) == ReadT(w)
    ensures ReadF(WriteR(w, v)) == ReadF(w)
    ensures ReadM(WriteR(w, v)) == ReadM(w)
    ensures ReadK(WriteR(w, v)) == ReadK(w)
  {}

  lemma WriteRKeepsOthers(w: bv32, v: bv32)
    requires v < 8
    ensures WriteR(w, v) & 0x1FFF_FFFF == w & 0x1FFF_FFFF
  {}

  lemma WriteRSeesOthers(x: bv32, y: bv32, v: bv32)
    requires x & 0x1FFF_FFFF == y & 0x1FFF_FFFF
    ensures WriteR(x, v) == WriteR(y, v)
  {}

  lemma WriteRTwice(w: bv32, v: bv32, v': bv32)
    requires v < 8
    ensures WriteR(WriteR(w, v), v') == WriteR(w, v')
  {
    WriteRKeepsOthers(w, v);
    WriteRSeesOthers(WriteR(w, v), w, v');
  }

  lemma WriteRRestores(w: bv32)
    ensures WriteR(w, ReadR(w)) == w
  {}

  lemma SetR(h: Human, v: bv32, v': bv32)
    requires v < 8
    ensures GetR(WithR(h, v)) == v
    ensures GetT(WithR(h, v)) == GetT(h)
    ensures GetF(WithR(h, v)) == GetF(h)
    ensures GetM(WithR(h, v)) == GetM(h)
    ensures GetK(WithR(h, v)) == GetK(h)
    ensures WithR(h, v) == h.(t1 := WithR(h, v).t1)
    ensures WithR(WithR(h, v), v') == WithR(h, v')
    ensures WithR(h, GetR(h)) == h
  {
    WriteRThenRead(h.t1, v);
    WriteRTwice(h.t1, v, v');
    WriteRRestores(h.t1);
  }

  function ReadT(w: bv32): bv32 {
    (w & 0x1FFF_E000) >> 13
  }

  function WriteT(w: bv32, novo: bv32): bv32 {
    (w & 0xE000_1FFF) | (novo << 13)
  }

  /** ReadT and WriteT use the mask, negative mask and shift tabulated for T. */
  lemma TIsTable(w: bv32, novo: bv32)
    ensures ReadT(w) == (w & PosMask(T)) >> Shift(T)
    ensures WriteT(w, novo) == (w & NegMask(T)) | (novo << Shift(T))
  {}

  function GetT(h: Human): bv32 {
    ReadT(h.t1)
  }

  function WithT(h: Human, novo: bv32): Human {
    h.(t1 := WriteT(h.t1, novo))
  }

  lemma ReadTFits(w: bv32)
    ensures ReadT(w) < 65536
  {}

  lemma WriteTThenRead(w: bv32, v: bv32)
    requires v < 65536
    ensures ReadT(WriteT(w, v)) == v
    ensures ReadR(WriteT(w, v)) == ReadR(w)
    ensures ReadF(WriteT(w, v)) == ReadF(w)
    ensures ReadM(WriteT(w, v)) == ReadM(w)
    ensures ReadK(WriteT(w, v)) == ReadK(w)
  {}

  lemma WriteTKeepsOthers(w: bv32, v: bv32)
    requires v < 65536
    ensures WriteT(w, v) & 0xE000_1FFF == w & 0xE000_1FFF
  {}

  lemma WriteTSeesOthers(x: bv32, y: bv32, v: bv32)
    requires x & 0xE000_1FFF == y & 0xE000_1FFF
    ensures WriteT(x, v) == WriteT(y, v)
  {}

  lemma WriteTTwice(w: bv32, v: bv32, v': bv32)
    requires v < 65536
    ensures WriteT(WriteT(w, v), v') == WriteT(w, v')
  {
    WriteTKeepsOthers(w, v);
    WriteTSeesOthers(WriteT(w, v), w, v');
  }

  lemma WriteTRestores(w: bv32)
    ensures WriteT(w, ReadT(w)) == w
  {}

  lemma SetT(h: Human, v: bv32, v': bv32)
    requires v < 65536
    ensures GetT(WithT(h, v)) == v
    ensures GetR(WithT(h, v)) == GetR(h)
    ensures GetF(WithT(h, v)) == GetF(h)
    ensures GetM(WithT(h, v)) == GetM(h)
    ensures GetK(WithT(h, v)) == GetK(h)
    ensures WithT(h, v) == h.(t1 := WithT(h, v).t1)
    ensures WithT(WithT(h, v), v') == WithT(h, v')
    ensures WithT(h, GetT(h)) == h
  {
    WriteTThenRead(h.t1, v);
    WriteTTwice(h.t1, v, v');
    WriteTRestores(h.t1);
  }

  function ReadF(w: bv32): bv32 {
    (w & 0x0000_1000) >> 12
  }

  function WriteF(w: bv32, novo: bv32): bv32 {
    (w & 0xFFFF_EFFF) | (novo << 12)
  }

  /** ReadF and WriteF use the mask, negative mask and shift tabulated for F. */
  lemma FIsTable(w: bv32, novo: bv32)
    ensures ReadF(w) == (w & PosMask(F)) >> Shift(F)
    ensures WriteF(w, novo) == (w & NegMask(F)) | (novo << Shift(F))
  {}

  function GetF(h: Human): bv32 {
    ReadF(h.t1)
  }

  function WithF(h: Human, novo: bv32): Human {
    h.(t1 := WriteF(h.t1, novo))
  }

  lemma ReadFFits(w: bv32)
    ensures ReadF(w) < 2
  {}

  lemma WriteFThenRead(w: bv32, v: bv32)
    requires v < 2
    ensures ReadF(WriteF(w, v)) == v
    ensures ReadR(WriteF(w, v)) == ReadR(w)
    ensures ReadT(WriteF(w, v)) == ReadT(w)
    ensures ReadM(WriteF(w, v)) == ReadM(w)
    ensures ReadK(WriteF(w, v)) == ReadK(w)
  {}

  lemma WriteFKeepsOthers(w: bv32, v: bv32)
    requires v < 2
    ensures WriteF(w, v) & 0xFFFF_EFFF == w & 0xFFFF_EFFF
  {}

  lemma WriteFSeesOthers(x: bv32, y: bv32, v: bv32)
    requires x & 0xFFFF_EFFF == y & 0xFFFF_EFFF
    ensures WriteF(x, v) == WriteF(y, v)
  {}

  lemma WriteFTwice(w: bv32, v: bv32, v': bv32)
    requires v < 2
    ensures WriteF(WriteF(w, v), v') == WriteF(w, v')
  {
    WriteFKeepsOthers(w, v);
    WriteFSeesOthers(WriteF(w, v), w, v');
  }

  lemma WriteFRestores(w: bv32)
    ensures WriteF(w, ReadF(w)) == w
  {}

  lemma SetF(h: Human, v: bv32, v': bv32)
    requires v < 2
    ensures GetF(WithF(h, v)) == v
    ensures GetR(WithF(h, v)) == GetR(h)
    ensures GetT(WithF(h, v)) == GetT(h)
    ensures GetM(WithF(h, v)) == GetM(h)
    ensures GetK(WithF(h, v)) == GetK(h)
    ensures WithF(h, v) == h.(t1 := WithF(h, v).t1)
    ensures WithF(WithF(h, v), v') == WithF(h, v')
    ensures WithF(h, GetF(h)) == h
  {
    WriteFThenRead(h.t1, v);
    WriteFTwice(h.t1, v, v');
    WriteFRestores(h.t1);
  }

  function ReadM(w: bv32): bv32 {
    (w & 0x0000_0FFC) >> 2
  }

  function WriteM(w: bv32, novo: bv32): bv32 {
    (w & 0xFFFF_F003) | (novo << 2)
  }

  /** ReadM and WriteM use the mask, negative mask and shift tabulated for M. */
  lemma MIsTable(w: bv32, novo: bv32)
    ensures ReadM(w) == (w & PosMask(M)) >> Shift(M)
    ensures WriteM(w, novo) == (w & NegMask(M)) | (novo << Shift(M))
  {}

  function GetM(h: Human): bv32 {
    ReadM(h.t1)
  }

  function WithM(h: Human, novo: bv32): Human {
    h.(t1 := WriteM(h.t1, novo))
  }

  lemma ReadMFits(w: bv32)
    ensures ReadM(w) < 1024
  {}

  lemma WriteMThenRead(w: bv32, v: bv32)
    requires v < 1024
    ensures ReadM(WriteM(w, v)) == v
    ensures ReadR(WriteM(w, v)) == ReadR(w)
    ensures ReadT(WriteM(w, v)) == ReadT(w)
    ensures ReadF(WriteM(w, v)) == ReadF(w)
    ensures ReadK(WriteM(w, v)) == ReadK(w)
  {}

  lemma WriteMKeepsOthers(w: bv32, v: bv32)
    requires v < 1024
    ensures WriteM(w, v) & 0xFFFF_F003 == w & 0xFFFF_F003
  {}

  lemma WriteMSeesOthers(x: bv32, y: bv32, v: bv32)
    requires x & 0xFFFF_F003 == y & 0xFFFF_F003
    ensures WriteM(x, v) == WriteM(y, v)
  {}

  lemma WriteMTwice(w: bv32, v: bv32, v': bv32)
    requires v < 1024
    ensures WriteM(WriteM(w, v), v') == WriteM(w, v')
  {
    WriteMKeepsOthers(w, v);
    WriteMSeesOthers(WriteM(w, v), w, v');
  }

  lemma WriteMRestores(w: bv32)
    ensures WriteM(w, ReadM(w)) == w
  {}

  lemma SetM(h: Human, v: bv32, v': bv32)
    requires v < 1024
    ensures GetM(WithM(h, v)) == v
    ensures GetR(WithM(h, v)) == GetR(h)
    ensures GetT(WithM(h, v)) == GetT(h)
    ensures GetF(WithM(h, v)) == GetF(h)
    ensures GetK(WithM(h, v)) == GetK(h)
    ensures WithM(h, v) == h.(t1 := WithM(h, v).t1)
    ensures WithM(WithM(h, v), v') == WithM(h, v')
    ensures WithM(h, GetM(h)) == h
  {
    WriteMThenRead(h.t1, v);
    WriteMTwice(h.t1, v, v');
    WriteMRestores(h.t1);
  }

  function ReadK(w: bv32): bv32 {
    (w & 0x0000_0003) >> 0
  }

  function WriteK(w: bv32, novo: bv32): bv32 {
    (w & 0xFFFF_FFFC) | (novo << 0)
  }

  /** ReadK and WriteK use the mask, negative mask and shift tabulated for K. */
  lemma KIsTable(w: bv32, novo: bv32)
    ensures ReadK(w) == (w & PosMask(K)) >> Shift(K)
    ensures WriteK(w, novo) == (w & NegMask(K)) | (novo << Shift(K))
  {}

  function GetK(h: Human): bv32 {
    ReadK(h.t1)
  }

  function WithK(h: Human, novo: bv32): Human {
    h.(t1 := WriteK(h.t1, novo))
  }

  lemma ReadKFits(w: bv32)
    ensures ReadK(w) < 4
  {}

  lemma WriteKThenRead(w: bv32, v: bv32)
    requires v < 4
    ensures ReadK(WriteK(w, v)) == v
    ensures ReadR(WriteK(w, v)) == ReadR(w)
    ensures ReadT(WriteK(w, v)) == ReadT(w)
    ensures ReadF(WriteK(w, v)) == ReadF(w)
    ensures ReadM(WriteK(w, v)) == ReadM(w)
  {}

  lemma WriteKKeepsOthers(w: bv32, v: bv32)
    requires v < 4
    ensures WriteK(w, v) & 0xFFFF_FFFC == w & 0xFFFF_FFFC
  {}

  lemma WriteKSeesOthers(x: bv32, y: bv32, v: bv32)
    requires x & 0xFFFF_FFFC == y & 0xFFFF_FFFC
    ensures WriteK(x, v) == WriteK(y, v)
  {}

  lemma WriteKTwice(w: bv32, v: bv32, v': bv32)
    requires v < 4
    ensures WriteK(WriteK(w, v), v') == WriteK(w, v')
  {
    WriteKKeepsOthers(w, v);
    WriteKSeesOthers(WriteK(w, v), w, v');
  }

  lemma WriteKRestores(w: bv32)
    ensures WriteK(w, ReadK(w)) == w
  {}

  lemma SetK(h: Human, v: bv32, v': bv32)
    requires v < 4
    ensures GetK(WithK(h, v)) == v
    ensures GetR(WithK(h, v)) == GetR(h)
    ensures GetT(WithK(h, v)) == GetT(h)
    ensures GetF(WithK(h, v)) == GetF(h)
    ensures GetM(WithK(h, v)) == GetM(h)
    ensures WithK(h, v) == h.(t1 := WithK(h, v).t1)
    ensures WithK(WithK(h, v), v') == WithK(h, v')
    ensures WithK(h, GetK(h)) == h
  {
    WriteKThenRead(h.t1, v);
    WriteKTwice(h.t1, v, v');
    WriteKRestores(h.t1);
  }

  // ---- word 2

  function ReadCR(w: bv32): bv32 {
    (w & 0x0E00_0000) >> 25
  }

  function WriteCR(w: bv32, novo: bv32): bv32 {
    (w & 0xF1FF_FFFF) | (novo << 25)
  }

  /** ReadCR and WriteCR use the mask, negative mask and shift tabulated for CR. */
  lemma CRIsTable(w: bv32, novo: bv32)
    ensures ReadCR(w) == (w & PosMask(CR)) >> Shift(CR)
    ensures WriteCR(w, novo) == (w & NegMask(CR)) | (novo << Shift(CR))
  {}

  function GetCR(h: Human): bv32 {
    ReadCR(h.t2)
  }

  function WithCR(h: Human, novo: bv32): Human {
    h.(t2 := WriteCR(h.t2, novo))
  }

  lemma ReadCRFits(w: bv32)
    ensures ReadCR(w) < 8
  {}

  lemma WriteCRThenRead(w: bv32, v: bv32)
    requires v < 8
    ensures ReadCR(WriteCR(w, v)) == v
    ensures ReadS(WriteCR(w, v)) == ReadS(w)
    ensures ReadFE(WriteCR(w, v)) == ReadFE(w)
    ensures ReadSD(WriteCR(w, v)) == ReadSD(w)
    ensures ReadST(WriteCR(w, v)) == ReadST(w)
    ensures ReadSC(WriteCR(w, v)) == ReadSC(w)
    ensures ReadA(WriteCR(w, v)) == ReadA(w)
    ensures ReadC(WriteCR(w, v)) == ReadC(w)
    ensures ReadCV(WriteCR(w, v)) == ReadCV(w)
  {}

  lemma WriteCRKeepsOthers(w: bv32, v: bv32)
    requires v < 8
    ensures WriteCR(w, v) & 0xF1FF_FFFF == w & 0xF1FF_FFFF
  {}

  lemma WriteCRSeesOthers(x: bv32, y: bv32, v: bv32)
    requires x & 0xF1FF_FFFF == y & 0xF1FF_FFFF
    ensures WriteCR(x, v) == WriteCR(y, v)
  {}

  lemma WriteCRTwice(w: bv32, v: bv32, v': bv32)
    requires v < 8
    ensures WriteCR(WriteCR(w, v), v') == WriteCR(w, v')
  {
    WriteCRKeepsOthers(w, v);
    WriteCRSeesOthers(WriteCR(w, v), w, v');
  }

  lemma WriteCRRestores(w: bv32)
    ensures WriteCR(w, ReadCR(w)) == w
  {}

  lemma SetCR(h: Human, v: bv32, v': bv32)
    requires v < 8
    ensures GetCR(WithCR(h, v)) == v
    ensures GetS(WithCR(h, v)) == GetS(h)
    ensures GetFE(WithCR(h, v)) == GetFE(h)
    ensures GetSD(WithCR(h, v)) == GetSD(h)
    ensures GetST(WithCR(h, v)) == GetST(h)
    ensures GetSC(WithCR(h, v)) == GetSC(h)
    ensures GetA(WithCR(h, v)) == GetA(h)
    ensures GetC(WithCR(h, v)) == GetC(h)
    ensures GetCV(WithCR(h, v)) == GetCV(h)
    ensures WithCR(h, v) == h.(t2 := WithCR(h, v).t2)
    ensures WithCR(WithCR(h, v), v') == WithCR(h, v')
    ensures WithCR(h, GetCR(h)) == h
  {
    WriteCRThenRead(h.t2, v);
    WriteCRTwice(h.t2, v, v');
    WriteCRRestores(h.t2);
  }

  function ReadS(w: bv32): bv32 {
    (w & 0x0100_0000) >> 24
  }

  function WriteS(w: bv32, novo: bv32): bv32 {
    (w & 0xFEFF_FFFF) | (novo << 24)
  }

  /** ReadS and WriteS use the mask, negative mask and shift tabulated for S. */
  lemma SIsTable(w: bv32, novo: bv32)
    ensures ReadS(w) == (w & PosMask(S)) >> Shift(S)
    ensures WriteS(w, novo) == (w & NegMask(S)) | (novo << Shift(S))
  {}

  function GetS(h: Human): bv32 {
    ReadS(h.t2)
  }

  function WithS(h: Human, novo: bv32): Human {
    h.(t2 := WriteS(h.t2, novo))
  }

  lemma ReadSFits(w: bv32)
    ensures ReadS(w) < 2
  {}

  lemma WriteSThenRead(w: bv32, v: bv32)
    requires v < 2
    ensures ReadS(WriteS(w, v)) == v
    ensures ReadCR(WriteS(w, v)) == ReadCR(w)
    ensures ReadFE(WriteS(w, v)) == ReadFE(w)
    ensures ReadSD(WriteS(w, v)) == ReadSD(w)
    ensures ReadST(WriteS(w, v)) == ReadST(w)
    ensures ReadSC(WriteS(w, v)) == ReadSC(w)
    ensures ReadA(WriteS(w, v)) == ReadA(w)
    ensures ReadC(WriteS(w, v)) == ReadC(w)
    ensures ReadCV(WriteS(w, v)) == ReadCV(w)
  {}

  lemma WriteSKeepsOthers(w: bv32, v: bv32)
    requires v < 2
    ensures WriteS(w, v) & 0xFEFF_FFFF == w & 0xFEFF_FFFF
  {}

  lemma WriteSSeesOthers(x: bv32, y: bv32, v: bv32)
    requires x & 0xFEFF_FFFF == y & 0xFEFF_FFFF
    ensures WriteS(x, v) == WriteS(y, v)
  {}

  lemma WriteSTwice(w: bv32, v: bv32, v': bv32)
    requires v < 2
    ensures WriteS(WriteS(w, v), v') == WriteS(w, v')
  {
    WriteSKeepsOthers(w, v);
    WriteSSeesOthers(WriteS(w, v), w, v');
  }

  lemma WriteSRestores(w: bv32)
    ensures WriteS(w, ReadS(w)) == w
  {}

  lemma SetS(h: Human, v: bv32, v': bv32)
    requires v < 2
    ensures GetS(WithS(h, v)) == v
    ensures GetCR(WithS(h, v)) == GetCR(h)
    ensures GetFE(WithS(h, v)) == GetFE(h)
    ensures GetSD(WithS(h, v)) == GetSD(h)
    ensures GetST(WithS(h, v)) == GetST(h)
    ensures GetSC(WithS(h, v)) == GetSC(h)
    ensures GetA(WithS(h, v)) == GetA(h)
    ensures GetC(WithS(h, v)) == GetC(h)
    ensures GetCV(WithS(h, v)) == GetCV(h)
    ensures WithS(h, v) == h.(t2 := WithS(h, v).t2)
    ensures WithS(WithS(h, v), v') == WithS(h, v')
    ensures WithS(h, GetS(h)) == h
  {
    WriteSThenRead(h.t2, v);
    WriteSTwice(h.t2, v, v');
    WriteSRestores(h.t2);
  }

  function ReadFE(w: bv32): bv32 {
    (w & 0x00E0_0000) >> 21
  }

  function WriteFE(w: bv32, novo: bv32): bv32 {
    (w & 0xFF1F_FFFF) | (novo << 21)
  }

  /** ReadFE and WriteFE use the mask, negative mask and shift tabulated for FE. */
  lemma FEIsTable(w: bv32, novo: bv32)
    ensures ReadFE(w) == (w & PosMask(FE)) >> Shift(FE)
    ensures WriteFE(w, novo) == (w & NegMask(FE)) | (novo << Shift(FE))
  {}

  function GetFE(h: Human): bv32 {
    ReadFE(h.t2)
  }

  function WithFE(h: Human, novo: bv32): Human {
    h.(t2 := WriteFE(h.t2, novo))
  }

  lemma ReadFEFits(w: bv32)
    ensures ReadFE(w) < 8
  {}

  lemma WriteFEThenRead(w: bv32, v: bv32)
    requires v < 8
    ensures ReadFE(WriteFE(w, v)) == v
    ensures ReadCR(WriteFE(w, v)) == ReadCR(w)
    ensures ReadS(WriteFE(w, v)) == ReadS(w)
    ensures ReadSD(WriteFE(w, v)) == ReadSD(w)
    ensures ReadST(WriteFE(w, v)) == ReadST(w)
    ensures ReadSC(WriteFE(w, v)) == ReadSC(w)
    ensures ReadA(WriteFE(w, v)) == ReadA(w)
    ensures ReadC(WriteFE(w, v)) == ReadC(w)
    ensures ReadCV(WriteFE(w, v)) == ReadCV(w)
  {}

  lemma WriteFEKeepsOthers(w: bv32, v: bv32)
    requires v < 8
    ensures WriteFE(w, v) & 0xFF1F_FFFF == w & 0xFF1F_FFFF
  {}

  lemma WriteFESeesOthers(x: bv32, y: bv32, v: bv32)
    requires x & 0xFF1F_FFFF == y & 0xFF1F_FFFF
    ensures WriteFE(x, v) == WriteFE(y, v)
  {}

  lemma WriteFETwice(w: bv32, v: bv32, v': bv32)
    requires v < 8
    ensures WriteFE(WriteFE(w, v), v') == WriteFE(w, v')
  {
    WriteFEKeepsOthers(w, v);
    WriteFESeesOthers(WriteFE(w, v), w, v');
  }

  lemma WriteFERestores(w: bv32)
    ensures WriteFE(w, ReadFE(w)) == w
  {}

  lemma SetFE(h: Human, v: bv32, v': bv32)
    requires v < 8
    ensures GetFE(WithFE(h, v)) == v
    ensures GetCR(WithFE(h, v)) == GetCR(h)
    ensures GetS(WithFE(h, v)) == GetS(h)
    ensures GetSD(WithFE(h, v)) == GetSD(h)
    ensures GetST(WithFE(h, v)) == GetST(h)
    ensures GetSC(WithFE(h, v)) == GetSC(h)
    ensures GetA(WithFE(h, v)) == GetA(h)
    ensures GetC(WithFE(h, v)) == GetC(h)
    ensures GetCV(WithFE(h, v)) == GetCV(h)
    ensures WithFE(h, v) == h.(t2 := WithFE(h, v).t2)
    ensures WithFE(WithFE(h, v), v') == WithFE(h, v')
    ensures WithFE(h, GetFE(h)) == h
  {
    WriteFEThenRead(h.t2, v);
    WriteFETwice(h.t2, v, v');
    WriteFERestores(h.t2);
  }

  function ReadSD(w: bv32): bv32 {
    (w & 0x001C_0000) >> 18
  }

  function WriteSD(w: bv32, novo: bv32): bv32 {
    (w & 0xFFE3_FFFF) | (novo << 18)
  }

  /** ReadSD and WriteSD use the mask, negative mask and shift tabulated for SD. */
  lemma SDIsTable(w: bv32, novo: bv32)
    ensures ReadSD(w) == (w & PosMask(SD)) >> Shift(SD)
    ensures WriteSD(w, novo) == (w & NegMask(SD)) | (novo << Shift(SD))
  {}

  function GetSD(h: Human): bv32 {
    ReadSD(h.t2)
  }

  function WithSD(h: Human, novo: bv32): Human {
    h.(t2 := WriteSD(h.t2, novo))
  }

  lemma ReadSDFits(w: bv32)
    ensures ReadSD(w) < 8
  {}

  lemma WriteSDThenRead(w: bv32, v: bv32)
    requires v < 8
    ensures ReadSD(WriteSD(w, v)) == v
    ensures ReadCR(WriteSD(w, v)) == ReadCR(w)
    ensures ReadS(WriteSD(w, v)) == ReadS(w)
    ensures ReadFE(WriteSD(w, v)) == ReadFE(w)
    ensures ReadST(WriteSD(w, v)) == ReadST(w)
    ensures ReadSC(WriteSD(w, v)) == ReadSC(w)
    ensures ReadA(WriteSD(w, v)) == ReadA(w)
    ensures ReadC(WriteSD(w, v)) == ReadC(w)
    ensures ReadCV(WriteSD(w, v)) == ReadCV(w)
  {}

  lemma WriteSDKeepsOthers(w: bv32, v: bv32)
    requires v < 8
    ensures WriteSD(w, v) & 0xFFE3_FFFF == w & 0xFFE3_FFFF
  {}

  lemma WriteSDSeesOthers(x: bv32, y: bv32, v: bv32)
    requires x & 0xFFE3_FFFF == y & 0xFFE3_FFFF
    ensures WriteSD(x, v) == WriteSD(y, v)
  {}

  lemma WriteSDTwice(w: bv32, v: bv32, v': bv32)
    requires v < 8
    ensures WriteSD(WriteSD(w, v), v') == WriteSD(w, v')
  {
    WriteSDKeepsOthers(w, v);
    WriteSDSeesOthers(WriteSD(w, v), w, v');
  }

  lemma WriteSDRestores(w: bv32)
    ensures WriteSD(w, ReadSD(w)) == w
  {}

  lemma SetSD(h: Human, v: bv32, v': bv32)
    requires v < 8
    ensures GetSD(WithSD(h, v)) == v
    ensures GetCR(WithSD(h, v)) == GetCR(h)
    ensures GetS(WithSD(h, v)) == GetS(h)
    ensures GetFE(WithSD(h, v)) == GetFE(h)
    ensures GetST(WithSD(h, v)) == GetST(h)
    ensures GetSC(WithSD(h, v)) == GetSC(h)
    ensures GetA(WithSD(h, v)) == GetA(h)
    ensures GetC(WithSD(h, v)) == GetC(h)
    ensures GetCV(WithSD(h, v)) == GetCV(h)
    ensures WithSD(h, v) == h.(t2 := WithSD(h, v).t2)
    ensures WithSD(WithSD(h, v), v') == WithSD(h, v')
    ensures WithSD(h, GetSD(h)) == h
  {
    WriteSDThenRead(h.t2, v);
    WriteSDTwice(h.t2, v, v');
    WriteSDRestores(h.t2);
  }

  function ReadST(w: bv32): bv32 {
    (w & 0x0003_8000) >> 15
  }

  function WriteST(w: bv32, novo: bv32): bv32 {
    (w & 0xFFFC_7FFF) | (novo << 15)
  }

  /** ReadST and WriteST use the mask, negative mask and shift tabulated for ST. */
  lemma STIsTable(w: bv32, novo: bv32)
    ensures ReadST(w) == (w & PosMask(ST)) >> Shift(ST)
    ensures WriteST(w, novo) == (w & NegMask(ST)) | (novo << Shift(ST))
  {}

  function GetST(h: Human): bv32 {
    ReadST(h.t2)
  }

  function WithST(h: Human, novo: bv32): Human {
    h.(t2 := WriteST(h.t2, novo))
  }

  lemma ReadSTFits(w: bv32)
    ensures ReadST(w) < 8
  {}

  lemma WriteSTThenRead(w: bv32, v: bv32)
    requires v < 8
    ensures ReadST(WriteST(w, v)) == v
    ensures ReadCR(WriteST(w, v)) == ReadCR(w)
    ensures ReadS(WriteST(w, v)) == ReadS(w)
    ensures ReadFE(WriteST(w, v)) == ReadFE(w)
    ensures ReadSD(WriteST(w, v)) == ReadSD(w)
    ensures ReadSC(WriteST(w, v)) == ReadSC(w)
    ensures ReadA(WriteST(w, v)) == ReadA(w)
    ensures ReadC(WriteST(w, v)) == ReadC(w)
    ensures ReadCV(WriteST(w, v)) == ReadCV(w)
  {}

  lemma WriteSTKeepsOthers(w: bv32, v: bv32)
    requires v < 8
    ensures WriteST(w, v) & 0xFFFC_7FFF == w & 0xFFFC_7FFF
  {}

  lemma WriteSTSeesOthers(x: bv32, y: bv32, v: bv32)
    requires x & 0xFFFC_7FFF == y & 0xFFFC_7FFF
    ensures WriteST(x, v) == WriteST(y, v)
  {}

  lemma WriteSTTwice(w: bv32, v: bv32, v': bv32)
    requires v < 8
    ensures WriteST(WriteST(w, v), v') == WriteST(w, v')
  {
    WriteSTKeepsOthers(w, v);
    WriteSTSeesOthers(WriteST(w, v), w, v');
  }

  lemma WriteSTRestores(w: bv32)
    ensures WriteST(w, ReadST(w)) == w
  {}

  lemma SetST(h: Human, v: bv32, v': bv32)
    requires v < 8
    ensures GetST(WithST(h, v)) == v
    ensures GetCR(WithST(h, v)) == GetCR(h)
    ensures GetS(WithST(h, v)) == GetS(h)
    ensures GetFE(WithST(h, v)) == GetFE(h)
    ensures GetSD(WithST(h, v)) == GetSD(h)
    ensures GetSC(WithST(h, v)) == GetSC(h)
    ensures GetA(WithST(h, v)) == GetA(h)
    ensures GetC(WithST(h, v)) == GetC(h)
    ensures GetCV(WithST(h, v)) == GetCV(h)
    ensures WithST(h, v) == h.(t2 := WithST(h, v).t2)
    ensures WithST(WithST(h, v), v') == WithST(h, v')
    ensures WithST(h, GetST(h)) == h
  {
    WriteSTThenRead(h.t2, v);
    WriteSTTwice(h.t2, v, v');
    WriteSTRestores(h.t2);
  }

  function ReadSC(w: bv32): bv32 {
    (w & 0x0000_7800) >> 11
  }

  function WriteSC(w: bv32, novo: bv32): bv32 {
    (w & 0xFFFF_87FF) | (novo << 11)
  }

  /** ReadSC and WriteSC use the mask, negative mask and shift tabulated for SC. */
  lemma SCIsTable(w: bv32, novo: bv32)
    ensures ReadSC(w) == (w & PosMask(SC)) >> Shift(SC)
    ensures WriteSC(w, novo) == (w & NegMask(SC)) | (novo << Shift(SC))
  {}

  function GetSC(h: Human): bv32 {
    ReadSC(h.t2)
  }

  function WithSC(h: Human, novo: bv32): Human {
    h.(t2 := WriteSC(h.t2, novo))
  }

  lemma ReadSCFits(w: bv32)
    ensures ReadSC(w) < 16
  {}

  lemma WriteSCThenRead(w: bv32, v: bv32)
    requires v < 16
    ensures ReadSC(WriteSC(w, v)) == v
    ensures ReadCR(WriteSC(w, v)) == ReadCR(w)
    ensures ReadS(WriteSC(w, v)) == ReadS(w)
    ensures ReadFE(WriteSC(w, v)) == ReadFE(w)
    ensures ReadSD(WriteSC(w, v)) == ReadSD(w)
    ensures ReadST(WriteSC(w, v)) == ReadST(w)
    ensures ReadA(WriteSC(w, v)) == ReadA(w)
    ensures ReadC(WriteSC(w, v)) == ReadC(w)
    ensures ReadCV(WriteSC(w, v)) == ReadCV(w)
  {}

  lemma WriteSCKeepsOthers(w: bv32, v: bv32)
    requires v < 16
    ensures WriteSC(w, v) & 0xFFFF_87FF == w & 0xFFFF_87FF
  {}

  lemma WriteSCSeesOthers(x: bv32, y: bv32, v: bv32)
    requires x & 0xFFFF_87FF == y & 0xFFFF_87FF
    ensures WriteSC(x, v) == WriteSC(y, v)
  {}

  lemma WriteSCTwice(w: bv32, v: bv32, v': bv32)
    requires v < 16
    ensures WriteSC(WriteSC(w, v), v') == WriteSC(w, v')
  {
    WriteSCKeepsOthers(w, v);
    WriteSCSeesOthers(WriteSC(w, v), w, v');
  }

  lemma WriteSCRestores(w: bv32)
    ensures WriteSC(w, ReadSC(w)) == w
  {}

  lemma SetSC(h: Human, v: bv32, v': bv32)
    requires v < 16
    ensures GetSC(WithSC(h, v)) == v
    ensures GetCR(WithSC(h, v)) == GetCR(h)
    ensures GetS(WithSC(h, v)) == GetS(h)
    ensures GetFE(WithSC(h, v)) == GetFE(h)
    ensures GetSD(WithSC(h, v)) == GetSD(h)
    ensures GetST(WithSC(h, v)) == GetST(h)
    ensures GetA(WithSC(h, v)) == GetA(h)
    ensures GetC(WithSC(h, v)) == GetC(h)
    ensures GetCV(WithSC(h, v)) == GetCV(h)
    ensures WithSC(h, v) == h.(t2 := WithSC(h, v).t2)
    ensures WithSC(WithSC(h, v), v') == WithSC(h, v')
    ensures WithSC(h, GetSC(h)) == h
  {
    WriteSCThenRead(h.t2, v);
    WriteSCTwice(h.t2, v, v');
    WriteSCRestores(h.t2);
  }

  function ReadA(w: bv32): bv32 {
    (w & 0x0000_0400) >> 10
  }

  function WriteA(w: bv32, novo: bv32): bv32 {
    (w & 0xFFFF_FBFF) | (novo << 10)
  }

  /** ReadA and WriteA use the mask, negative mask and shift tabulated for A. */
  lemma AIsTable(w: bv32, novo: bv32)
    ensures ReadA(w) == (w & PosMask(A)) >> Shift(A)
    ensures WriteA(w, novo) == (w & NegMask(A)) | (novo << Shift(A))
  {}

  function GetA(h: Human): bv32 {
    ReadA(h.t2)
  }

  function WithA(h: Human, novo: bv32): Human {
    h.(t2 := WriteA(h.t2, novo))
  }

  lemma ReadAFits(w: bv32)
    ensures ReadA(w) < 2
  {}

  lemma WriteAThenRead(w: bv32, v: bv32)
    requires v < 2
    ensures ReadA(WriteA(w, v)) == v
    ensures ReadCR(WriteA(w, v)) == ReadCR(w)
    ensures ReadS(WriteA(w, v)) == ReadS(w)
    ensures ReadFE(WriteA(w, v)) == ReadFE(w)
    ensures ReadSD(WriteA(w, v)) == ReadSD(w)
    ensures ReadST(WriteA(w, v)) == ReadST(w)
    ensures ReadSC(WriteA(w, v)) == ReadSC(w)
    ensures ReadC(WriteA(w, v)) == ReadC(w)
    ensures ReadCV(WriteA(w, v)) == ReadCV(w)
  {}

  lemma WriteAKeepsOthers(w: bv32, v: bv32)
    requires v < 2
    ensures WriteA(w, v) & 0xFFFF_FBFF == w & 0xFFFF_FBFF
  {}

  lemma WriteASeesOthers(x: bv32, y: bv32, v: bv32)
    requires x & 0xFFFF_FBFF == y & 0xFFFF_FBFF
    ensures WriteA(x, v) == WriteA(y, v)
  {}

  lemma WriteATwice(w: bv32, v: bv32, v': bv32)
    requires v < 2
    ensures WriteA(WriteA(w, v), v') == WriteA(w, v')
  {
    WriteAKeepsOthers(w, v);
    WriteASeesOthers(WriteA(w, v), w, v');
  }

  lemma WriteARestores(w: bv32)
    ensures WriteA(w, ReadA(w)) == w
  {}

  lemma SetA(h: Human, v: bv32, v': bv32)
    requires v < 2
    ensures GetA(WithA(h, v)) == v
    ensures GetCR(WithA(h, v)) == GetCR(h)
    ensures GetS(WithA(h, v)) == GetS(h)
    ensures GetFE(WithA(h, v)) == GetFE(h)
    ensures GetSD(WithA(h, v)) == GetSD(h)
    ensures GetST(WithA(h, v)) == GetST(h)
    ensures GetSC(WithA(h, v)) == GetSC(h)
    ensures GetC(WithA(h, v)) == GetC(h)
    ensures GetCV(WithA(h, v)) == GetCV(h)
    ensures WithA(h, v) == h.(t2 := WithA(h, v).t2)
    ensures WithA(WithA(h, v), v') == WithA(h, v')
    ensures WithA(h, GetA(h)) == h
  {
    WriteAThenRead(h.t2, v);
    WriteATwice(h.t2, v, v');
    WriteARestores(h.t2);
  }

  function ReadC(w: bv32): bv32 {
    (w & 0x0000_03FC) >> 2
  }

  function WriteC(w: bv32, novo: bv32): bv32 {
    (w & 0xFFFF_FC03) | (novo << 2)
  }

  /** ReadC and WriteC use the mask, negative mask and shift tabulated for C. */
  lemma CIsTable(w: bv32, novo: bv32)
    ensures ReadC(w) == (w & PosMask(C)) >> Shift(C)
    ensures WriteC(w, novo) == (w & NegMask(C)) | (novo << Shift(C))
  {}

  function GetC(h: Human): bv32 {
    ReadC(h.t2)
  }

  function WithC(h: Human, novo: bv32): Human {
    h.(t2 := WriteC(h.t2, novo))
  }

  lemma ReadCFits(w: bv32)
    ensures ReadC(w) < 256
  {}

  lemma WriteCThenRead(w: bv32, v: bv32)
    requires v < 256
    ensures ReadC(WriteC(w, v)) == v
    ensures ReadCR(WriteC(w, v)) == ReadCR(w)
    ensures ReadS(WriteC(w, v)) == ReadS(w)
    ensures ReadFE(WriteC(w, v)) == ReadFE(w)
    ensures ReadSD(WriteC(w, v)) == ReadSD(w)
    ensures ReadST(WriteC(w, v)) == ReadST(w)
    ensures ReadSC(WriteC(w, v)) == ReadSC(w)
    ensures ReadA(WriteC(w, v)) == ReadA(w)
    ensures ReadCV(WriteC(w, v)) == ReadCV(w)
  {}

  lemma WriteCKeepsOthers(w: bv32, v: bv32)
    requires v < 256
    ensures WriteC(w, v) & 0xFFFF_FC03 == w & 0xFFFF_FC03
  {}

  lemma WriteCSeesOthers(x: bv32, y: bv32, v: bv32)
    requires x & 0xFFFF_FC03 == y & 0xFFFF_FC03
    ensures WriteC(x, v) == WriteC(y, v)
  {}

  lemma WriteCTwice(w: bv32, v: bv32, v': bv32)
    requires v < 256
    ensures WriteC(WriteC(w, v), v') == WriteC(w, v')
  {
    WriteCKeepsOthers(w, v);
    WriteCSeesOthers(WriteC(w, v), w, v');
  }

  lemma WriteCRestores(w: bv32)
    ensures WriteC(w, ReadC(w)) == w
  {}

  lemma SetC(h: Human, v: bv32, v': bv32)
    requires v < 256
    ensures GetC(WithC(h, v)) == v
    ensures GetCR(WithC(h, v)) == GetCR(h)
    ensures GetS(WithC(h, v)) == GetS(h)
    ensures GetFE(WithC(h, v)) == GetFE(h)
    ensures GetSD(WithC(h, v)) == GetSD(h)
    ensures GetST(WithC(h, v)) == GetST(h)
    ensures GetSC(WithC(h, v)) == GetSC(h)
    ensures GetA(WithC(h, v)) == GetA(h)
    ensures GetCV(WithC(h, v)) == GetCV(h)
    ensures WithC(h, v) == h.(t2 := WithC(h, v).t2)
    ensures WithC(WithC(h, v), v') == WithC(h, v')
    ensures WithC(h, GetC(h)) == h
  {
    WriteCThenRead(h.t2, v);
    WriteCTwice(h.t2, v, v');
    WriteCRestores(h.t2);
  }

  function ReadCV(w: bv32): bv32 {
    (w & 0x0000_0003) >> 0
  }

  function WriteCV(w: bv32, novo: bv32): bv32 {
    (w & 0xFFFF_FFFC) | (novo << 0)
  }

  /** ReadCV and WriteCV use the mask, negative mask and shift tabulated for CV. */
  lemma CVIsTable(w: bv32, novo: bv32)
    ensures ReadCV(w) == (w & PosMask(CV)) >> Shift(CV)
    ensures WriteCV(w, novo) == (w & NegMask(CV)) | (novo << Shift(CV))
  {}

  function GetCV(h: Human): bv32 {
    ReadCV(h.t2)
  }

  function WithCV(h: Human, novo: bv32): Human {
    h.(t2 := WriteCV(h.t2, novo))
  }

  lemma ReadCVFits(w: bv32)
    ensures ReadCV(w) < 4
  {}

  lemma WriteCVThenRead(w: bv32, v: bv32)
    requires v < 4
    ensures ReadCV(WriteCV(w, v)) == v
    ensures ReadCR(WriteCV(w, v)) == ReadCR(w)
    ensures ReadS(WriteCV(w, v)) == ReadS(w)
    ensures ReadFE(WriteCV(w, v)) == ReadFE(w)
    ensures ReadSD(WriteCV(w, v)) == ReadSD(w)
    ensures ReadST(WriteCV(w, v)) == ReadST(w)
    ensures ReadSC(WriteCV(w, v)) == ReadSC(w)
    ensures ReadA(WriteCV(w, v)) == ReadA(w)
    ensures ReadC(WriteCV(w, v)) == ReadC(w)
  {}

  lemma WriteCVKeepsOthers(w: bv32, v: bv32)
    requires v < 4
    ensures WriteCV(w, v) & 0xFFFF_FFFC == w & 0xFFFF_FFFC
  {}

  lemma WriteCVSeesOthers(x: bv32, y: bv32, v: bv32)
    requires x & 0xFFFF_FFFC == y & 0xFFFF_FFFC
    ensures WriteCV(x, v) == WriteCV(y, v)
  {}

  lemma WriteCVTwice(w: bv32, v: bv32, v': bv32)
    requires v < 4
    ensures WriteCV(WriteCV(w, v), v') == WriteCV(w, v')
  {
    WriteCVKeepsOthers(w, v);
    WriteCVSeesOthers(WriteCV(w, v), w, v');
  }

  lemma WriteCVRestores(w: bv32)
    ensures WriteCV(w, ReadCV(w)) == w
  {}

  lemma SetCV(h: Human, v: bv32, v': bv32)
    requires v < 4
    ensures GetCV(WithCV(h, v)) == v
    ensures GetCR(WithCV(h, v)) == GetCR(h)
    ensures GetS(WithCV(h, v)) == GetS(h)
    ensures GetFE(WithCV(h, v)) == GetFE(h)
    ensures GetSD(WithCV(h, v)) == GetSD(h)
    ensures GetST(WithCV(h, v)) == GetST(h)
    ensures GetSC(WithCV(h, v)) == GetSC(h)
    ensures GetA(WithCV(h, v)) == GetA(h)
    ensures GetC(WithCV(h, v)) == GetC(h)
    ensures WithCV(h, v) == h.(t2 := WithCV(h, v).t2)
    ensures WithCV(WithCV(h, v), v') == WithCV(h, v')
    ensures WithCV(h, GetCV(h)) == h
  {
    WriteCVThenRead(h.t2, v);
    WriteCVTwice(h.t2, v, v');
    WriteCVRestores(h.t2);
  }

  // ---- word 3

  function ReadX(w: bv32): bv32 {
    (w & 0xFFFF_E000) >> 13
  }

  function WriteX(w: bv32, novo: bv32): bv32 {
    (w & 0x0000_1FFF) | (novo << 13)
  }

  /** ReadX and WriteX use the mask, negative mask and shift tabulated for X. */
  lemma XIsTable(w: bv32, novo: bv32)
    ensures ReadX(w) == (w & PosMask(X)) >> Shift(X)
    ensures WriteX(w, novo) == (w & NegMask(X)) | (novo << Shift(X))
  {}

  function GetX(h: Human): bv32 {
    ReadX(h.t3)
  }

  function WithX(h: Human, novo: bv32): Human {
    h.(t3 := WriteX(h.t3, novo))
  }

  lemma ReadXFits(w: bv32)
    ensures ReadX(w) < 524288
  {}

  lemma WriteXThenRead(w: bv32, v: bv32)
    requires v < 524288
    ensures ReadX(WriteX(w, v)) == v
    ensures ReadL(WriteX(w, v)) == ReadL(w)
  {}

  lemma WriteXKeepsOthers(w: bv32, v: bv32)
    requires v < 524288
    ensures WriteX(w, v) & 0x0000_1FFF == w & 0x0000_1FFF
  {}

  lemma WriteXSeesOthers(x: bv32, y: bv32, v: bv32)
    requires x & 0x0000_1FFF == y & 0x0000_1FFF
    ensures WriteX(x, v) == WriteX(y, v)
  {}

  lemma WriteXTwice(w: bv32, v: bv32, v': bv32)
    requires v < 524288
    ensures WriteX(WriteX(w, v), v') == WriteX(w, v')
  {
    WriteXKeepsOthers(w, v);
    WriteXSeesOthers(WriteX(w, v), w, v');
  }

  lemma WriteXRestores(w: bv32)
    ensures WriteX(w, ReadX(w)) == w
  {}

  lemma SetX(h: Human, v: bv32, v': bv32)
    requires v < 524288
    ensures GetX(WithX(h, v)) == v
    ensures GetL(WithX(h, v)) == GetL(h)
    ensures WithX(h, v) == h.(t3 := WithX(h, v).t3)
    ensures WithX(WithX(h, v), v') == WithX(h, v')
    ensures WithX(h, GetX(h)) == h
  {
    WriteXThenRead(h.t3, v);
    WriteXTwice(h.t3, v, v');
    WriteXRestores(h.t3);
  }

  function ReadL(w: bv32): bv32 {
    (w & 0x0000_1FFF) >> 0
  }

  function WriteL(w: bv32, novo: bv32): bv32 {
    (w & 0xFFFF_E000) | (novo << 0)
  }

  /** ReadL and WriteL use the mask, negative mask and shift tabulated for L. */
  lemma LIsTable(w: bv32, novo: bv32)
    ensures ReadL(w) == (w & PosMask(L)) >> Shift(L)
    ensures WriteL(w, novo) == (w & NegMask(L)) | (novo << Shift(L))
  {}

  function GetL(h: Human): bv32 {
    ReadL(h.t3)
  }

  function WithL(h: Human, novo: bv32): Human {
    h.(t3 := WriteL(h.t3, novo))
  }

  lemma ReadLFits(w: bv32)
    ensures ReadL(w) < 8192
  {}

  lemma WriteLThenRead(w: bv32, v: bv32)
    requires v < 8192
    ensures ReadL(WriteL(w, v)) == v
    ensures ReadX(WriteL(w, v)) == ReadX(w)
  {}

  lemma WriteLKeepsOthers(w: bv32, v: bv32)
    requires v < 8192
    ensures WriteL(w, v) & 0xFFFF_E000 == w & 0xFFFF_E000
  {}

  lemma WriteLSeesOthers(x: bv32, y: bv32, v: bv32)
    requires x & 0xFFFF_E000 == y & 0xFFFF_E000
    ensures WriteL(x, v) == WriteL(y, v)
  {}

  lemma WriteLTwice(w: bv32, v: bv32, v': bv32)
    requires v < 8192
    ensures WriteL(WriteL(w, v), v') == WriteL(w, v')
  {
    WriteLKeepsOthers(w, v);
    WriteLSeesOthers(WriteL(w, v), w, v');
  }

  lemma WriteLRestores(w: bv32)
    ensures WriteL(w, ReadL(w)) == w
  {}

  lemma SetL(h: Human, v: bv32, v': bv32)
    requires v < 8192
    ensures GetL(WithL(h, v)) == v
    ensures GetX(WithL(h, v)) == GetX(h)
    ensures WithL(h, v) == h.(t3 := WithL(h, v).t3)
    ensures WithL(WithL(h, v), v') == WithL(h, v')
    ensures WithL(h, GetL(h)) == h
  {
    WriteLThenRead(h.t3, v);
    WriteLTwice(h.t3, v, v');
    WriteLRestores(h.t3);
  }

  // ---- word 4

  function ReadY(w: bv32): bv32 {
    (w & 0xFFFF_FE00) >> 9
  }

  function WriteY(w: bv32, novo: bv32): bv32 {
    (w & 0x0000_01FF) | (novo << 9)
  }

  /** ReadY and WriteY use the mask, negative mask and shift tabulated for Y. */
  lemma YIsTable(w: bv32, novo: bv32)
    ensures ReadY(w) == (w & PosMask(Y)) >> Shift(Y)
    ensures WriteY(w, novo) == (w & NegMask(Y)) | (novo << Shift(Y))
  {}

  function GetY(h: Human): bv32 {
    ReadY(h.t4)
  }

  function WithY(h: Human, novo: bv32): Human {
    h.(t4 := WriteY(h.t4, novo))
  }

  lemma ReadYFits(w: bv32)
    ensures ReadY(w) < 8388608
  {}

  lemma WriteYThenRead(w: bv32, v: bv32)
    requires v < 8388608
    ensures ReadY(WriteY(w, v)) == v
    ensures ReadQ(WriteY(w, v)) == ReadQ(w)
  {}

  lemma WriteYKeepsOthers(w: bv32, v: bv32)
    requires v < 8388608
    ensures WriteY(w, v) & 0x0000_01FF == w & 0x0000_01FF
  {}

  lemma WriteYSeesOthers(x: bv32, y: bv32, v: bv32)
    requires x & 0x0000_01FF == y & 0x0000_01FF
    ensures WriteY(x, v) == WriteY(y, v)
  {}

  lemma WriteYTwice(w: bv32, v: bv32, v': bv32)
    requires v < 8388608
    ensures WriteY(WriteY(w, v), v') == WriteY(w, v')
  {
    WriteYKeepsOthers(w, v);
    WriteYSeesOthers(WriteY(w, v), w, v');
  }

  lemma WriteYRestores(w: bv32)
    ensures WriteY(w, ReadY(w)) == w
  {}

  lemma SetY(h: Human, v: bv32, v': bv32)
    requires v < 8388608
    ensures GetY(WithY(h, v)) == v
    ensures GetQ(WithY(h, v)) == GetQ(h)
    ensures WithY(h, v) == h.(t4 := WithY(h, v).t4)
    ensures WithY(WithY(h, v), v') == WithY(h, v')
    ensures WithY(h, GetY(h)) == h
  {
    WriteYThenRead(h.t4, v);
    WriteYTwice(h.t4, v, v');
    WriteYRestores(h.t4);
  }

  function ReadQ(w: bv32): bv32 {
    (w & 0x0000_01FF) >> 0
  }

  function WriteQ(w: bv32, novo: bv32): bv32 {
    (w & 0xFFFF_FE00) | (novo << 0)
  }

  /** ReadQ and WriteQ use the mask, negative mask and shift tabulated for Q. */
  lemma QIsTable(w: bv32, novo: bv32)
    ensures ReadQ(w) == (w & PosMask(Q)) >> Shift(Q)
    ensures WriteQ(w, novo) == (w & NegMask(Q)) | (novo << Shift(Q))
  {}

  function GetQ(h: Human): bv32 {
    ReadQ(h.t4)
  }

  function WithQ(h: Human, novo: bv32): Human {
    h.(t4 := WriteQ(h.t4, novo))
  }

  lemma ReadQFits(w: bv32)
    ensures ReadQ(w) < 512
  {}

  lemma WriteQThenRead(w: bv32, v: bv32)
    requires v < 512
    ensures ReadQ(WriteQ(w, v)) == v
    ensures ReadY(WriteQ(w, v)) == ReadY(w)
  {}

  lemma WriteQKeepsOthers(w: bv32, v: bv32)
    requires v < 512
    ensures WriteQ(w, v) & 0xFFFF_FE00 == w & 0xFFFF_FE00
  {}

  lemma WriteQSeesOthers(x: bv32, y: bv32, v: bv32)
    requires x & 0xFFFF_FE00 == y & 0xFFFF_FE00
    ensures WriteQ(x, v) == WriteQ(y, v)
  {}

  lemma WriteQTwice(w: bv32, v: bv32, v': bv32)
    requires v < 512
    ensures WriteQ(WriteQ(w, v), v') == WriteQ(w, v')
  {
    WriteQKeepsOthers(w, v);
    WriteQSeesOthers(WriteQ(w, v), w, v');
  }

  lemma WriteQRestores(w: bv32)
    ensures WriteQ(w, ReadQ(w)) == w
  {}

  lemma SetQ(h: Human, v: bv32, v': bv32)
    requires v < 512
    ensures GetQ(WithQ(h, v)) == v
    ensures GetY(WithQ(h, v)) == GetY(h)
    ensures WithQ(h, v) == h.(t4 := WithQ(h, v).t4)
    ensures WithQ(WithQ(h, v), v') == WithQ(h, v')
    ensures WithQ(h, GetQ(h)) == h
  {
    WriteQThenRead(h.t4, v);
    WriteQTwice(h.t4, v, v');
    WriteQRestores(h.t4);
  }

  /** Word 1 is exactly its attributes put back in place: they use all 32 bits. */
  lemma Tira1Tiles(h: Human)
    ensures h.t1 ==
      (GetR(h) << 29) | (GetT(h) << 13) | (GetF(h) << 12) |
      (GetM(h) << 2) | (GetK(h) << 0)
  {}

  /** The spare top 4 bits aside, word 2 is exactly its attributes put back in place. */
  lemma Tira2Tiles(h: Human)
    ensures h.t2 & 0x0FFF_FFFF ==
      (GetCR(h) << 25) | (GetS(h) << 24) | (GetFE(h) << 21) |
      (GetSD(h) << 18) | (GetST(h) << 15) | (GetSC(h) << 11) |
      (GetA(h) << 10) | (GetC(h) << 2) | (GetCV(h) << 0)
  {}

  /** Words 3 and 4 are exactly their two attributes put back in place. */
  lemma Tira34Tiles(h: Human)
    ensures h.t3 == (GetX(h) << 13) | (GetL(h) << 0)
    ensures h.t4 == (GetY(h) << 9) | (GetQ(h) << 0)
  {}

  // ------------------------------------------------------------ by attribute name
  //
  // GET_H(i, t, ma, a) and SET_H(i, t, novo, nm, a) take the word, the mask
  // and the shift as arguments; Get and WithField select the word of the
  // attribute and apply that attribute's read or write to it.

  /** The read of attribute f applied to a word of its record. */
  function Read(w: bv32, f: Field): bv32 {
    match f
    case R => ReadR(w)
    case T => ReadT(w)
    case F => ReadF(w)
    case M => ReadM(w)
    case K => ReadK(w)
    case CR => ReadCR(w)
    case S => ReadS(w)
    case FE => ReadFE(w)
    case SD => ReadSD(w)
    case ST => ReadST(w)
    case SC => ReadSC(w)
    case A => ReadA(w)
    case C => ReadC(w)
    case CV => ReadCV(w)
    case X => ReadX(w)
    case L => ReadL(w)
    case Y => ReadY(w)
    case Q => ReadQ(w)
  }

  /** The write of attribute f applied to a word of its record. */
  function Write(w: bv32, f: Field, novo: bv32): bv32 {
    match f
    case R => WriteR(w, novo)
    case T => WriteT(w, novo)
    case F => WriteF(w, novo)
    case M => WriteM(w, novo)
    case K => WriteK(w, novo)
    case CR => WriteCR(w, novo)
    case S => WriteS(w, novo)
    case FE => WriteFE(w, novo)
    case SD => WriteSD(w, novo)
    case ST => WriteST(w, novo)
    case SC => WriteSC(w, novo)
    case A => WriteA(w, novo)
    case C => WriteC(w, novo)
    case CV => WriteCV(w, novo)
    case X => WriteX(w, novo)
    case L => WriteL(w, novo)
    case Y => WriteY(w, novo)
    case Q => WriteQ(w, novo)
  }

  /** The value of attribute f. */
  function Get(h: Human, f: Field): bv32 {
    Read(WordOf(h, TiraOf(f)), f)
  }

  /** The record after writing novo into attribute f. */
  function WithField(h: Human, f: Field, novo: bv32): Human {
    WithWord(h, TiraOf(f), Write(WordOf(h, TiraOf(f)), f, novo))
  }

  // For each attribute X, XByName and XReadBackByName restate XIsTable and
  // the word-level facts about WriteX through Read and Write, for an f that
  // is X; the lemmas by attribute name below pick the ones for their f.

  lemma RByName(w: bv32, f: Field, novo: bv32)
    requires f == R
    ensures Read(w, f) == (w & PosMask(f)) >> Shift(f)
    ensures Write(w, f, novo) == (w & NegMask(f)) | (novo << Shift(f))
  {
    RIsTable(w, novo);
  }

  lemma RReadBackByName(w: bv32, f: Field, v: bv32, v': bv32)
    requires f == R && v < Limit(f)
    ensures Read(Write(w, f, v), f) == v
    ensures Write(Write(w, f, v), f, v') == Write(w, f, v')
    ensures Write(w, f, Read(w, f)) == w
  {
    WriteRThenRead(w, v);
    WriteRTwice(w, v, v');
    WriteRRestores(w);
  }

  lemma TByName(w: bv32, f: Field, novo: bv32)
    requires f == T
    ensures Read(w, f) == (w & PosMask(f)) >> Shift(f)
    ensures Write(w, f, novo) == (w & NegMask(f)) | (novo << Shift(f))
  {
    TIsTable(w, novo);
  }

  lemma TReadBackByName(w: bv32, f: Field, v: bv32, v': bv32)
    requires f == T && v < Limit(f)
    ensures Read(Write(w, f, v), f) == v
    ensures Write(Write(w, f, v), f, v') == Write(w, f, v')
    ensures Write(w, f, Read(w, f)) == w
  {
    WriteTThenRead(w, v);
    WriteTTwice(w, v, v');
    WriteTRestores(w);
  }

  lemma FByName(w: bv32, f: Field, novo: bv32)
    requires f == F
    ensures Read(w, f) == (w & PosMask(f)) >> Shift(f)
    ensures Write(w, f, novo) == (w & NegMask(f)) | (novo << Shift(f))
  {
    FIsTable(w, novo);
  }

  lemma FReadBackByName(w: bv32, f: Field, v: bv32, v': bv32)
    requires f == F && v < Limit(f)
    ensures Read(Write(w, f, v), f) == v
    ensures Write(Write(w, f, v), f, v') == Write(w, f, v')
    ensures Write(w, f, Read(w, f)) == w
  {
    WriteFThenRead(w, v);
    WriteFTwice(w, v, v');
    WriteFRestores(w);
  }

  lemma MByName(w: bv32, f: Field, novo: bv32)
    requires f == M
    ensures Read(w, f) == (w & PosMask(f)) >> Shift(f)
    ensures Write(w, f, novo) == (w & NegMask(f)) | (novo << Shift(f))
  {
    MIsTable(w, novo);
  }

  lemma MReadBackByName(w: bv32, f: Field, v: bv32, v': bv32)
    requires f == M && v < Limit(f)
    ensures Read(Write(w, f, v), f) == v
    ensures Write(Write(w, f, v), f, v') == Write(w, f, v')
    ensures Write(w, f, Read(w, f)) == w
  {
    WriteMThenRead(w, v);
    WriteMTwice(w, v, v');
    WriteMRestores(w);
  }

  lemma KByName(w: bv32, f: Field, novo: bv32)
    requires f == K
    ensures Read(w, f) == (w & PosMask(f)) >> Shift(f)
    ensures Write(w, f, novo) == (w & NegMask(f)) | (novo << Shift(f))
  {
    KIsTable(w, novo);
  }

  lemma KReadBackByName(w: bv32, f: Field, v: bv32, v': bv32)
    requires f == K && v < Limit(f)
    ensures Read(Write(w, f, v), f) == v
    ensures Write(Write(w, f, v), f, v') == Write(w, f, v')
    ensures Write(w, f, Read(w, f)) == w
  {
    WriteKThenRead(w, v);
    WriteKTwice(w, v, v');
    WriteKRestores(w);
  }

  lemma CRByName(w: bv32, f: Field, novo: bv32)
    requires f == CR
    ensures Read(w, f) == (w & PosMask(f)) >> Shift(f)
    ensures Write(w, f, novo) == (w & NegMask(f)) | (novo << Shift(f))
  {
    CRIsTable(w, novo);
  }

  lemma CRReadBackByName(w: bv32, f: Field, v: bv32, v': bv32)
    requires f == CR && v < Limit(f)
    ensures Read(Write(w, f, v), f) == v
    ensures Write(Write(w, f, v), f, v') == Write(w, f, v')
    ensures Write(w, f, Read(w, f)) == w
  {
    WriteCRThenRead(w, v);
    WriteCRTwice(w, v, v');
    WriteCRRestores(w);
  }

  lemma SByName(w: bv32, f: Field, novo: bv32)
    requires f == S
    ensures Read(w, f) == (w & PosMask(f)) >> Shift(f)
    ensures Write(w, f, novo) == (w & NegMask(f)) | (novo << Shift(f))
  {
    SIsTable(w, novo);
  }

  lemma SReadBackByName(w: bv32, f: Field, v: bv32, v': bv32)
    requires f == S && v < Limit(f)
    ensures Read(Write(w, f, v), f) == v
    ensures Write(Write(w, f, v), f, v') == Write(w, f, v')
    ensures Write(w, f, Read(w, f)) == w
  {
    WriteSThenRead(w, v);
    WriteSTwice(w, v, v');
    WriteSRestores(w);
  }

  lemma FEByName(w: bv32, f: Field, novo: bv32)
    requires f == FE
    ensures Read(w, f) == (w & PosMask(f)) >> Shift(f)
    ensures Write(w, f, novo) == (w & NegMask(f)) | (novo << Shift(f))
  {
    FEIsTable(w, novo);
  }

  lemma FEReadBackByName(w: bv32, f: Field, v: bv32, v': bv32)
    requires f == FE && v < Limit(f)
    ensures Read(Write(w, f, v), f) == v
    ensures Write(Write(w, f, v), f, v') == Write(w, f, v')
    ensures Write(w, f, Read(w, f)) == w
  {
    WriteFEThenRead(w, v);
    WriteFETwice(w, v, v');
    WriteFERestores(w);
  }

  lemma SDByName(w: bv32, f: Field, novo: bv32)
    requires f == SD
    ensures Read(w, f) == (w & PosMask(f)) >> Shift(f)
    ensures Write(w, f, novo) == (w & NegMask(f)) | (novo << Shift(f))
  {
    SDIsTable(w, novo);
  }

  lemma SDReadBackByName(w: bv32, f: Field, v: bv32, v': bv32)
    requires f == SD && v < Limit(f)
    ensures Read(Write(w, f, v), f) == v
    ensures Write(Write(w, f, v), f, v') == Write(w, f, v')
    ensures Write(w, f, Read(w, f)) == w
  {
    WriteSDThenRead(w, v);
    WriteSDTwice(w, v, v');
    WriteSDRestores(w);
  }

  lemma STByName(w: bv32, f: Field, novo: bv32)
    requires f == ST
    ensures Read(w, f) == (w & PosMask(f)) >> Shift(f)
    ensures Write(w, f, novo) == (w & NegMask(f)) | (novo << Shift(f))
  {
    STIsTable(w, novo);
  }

  lemma STReadBackByName(w: bv32, f: Field, v: bv32, v': bv32)
    requires f == ST && v < Limit(f)
    ensures Read(Write(w, f, v), f) == v
    ensures Write(Write(w, f, v), f, v') == Write(w, f, v')
    ensures Write(w, f, Read(w, f)) == w
  {
    WriteSTThenRead(w, v);
    WriteSTTwice(w, v, v');
    WriteSTRestores(w);
  }

  lemma SCByName(w: bv32, f: Field, novo: bv32)
    requires f == SC
    ensures Read(w, f) == (w & PosMask(f)) >> Shift(f)
    ensures Write(w, f, novo) == (w & NegMask(f)) | (novo << Shift(f))
  {
    SCIsTable(w, novo);
  }

  lemma SCReadBackByName(w: bv32, f: Field, v: bv32, v': bv32)
    requires f == SC && v < Limit(f)
    ensures Read(Write(w, f, v), f) == v
    ensures Write(Write(w, f, v), f, v') == Write(w, f, v')
    ensures Write(w, f, Read(w, f)) == w
  {
    WriteSCThenRead(w, v);
    WriteSCTwice(w, v, v');
    WriteSCRestores(w);
  }

  lemma AByName(w: bv32, f: Field, novo: bv32)
    requires f == A
    ensures Read(w, f) == (w & PosMask(f)) >> Shift(f)
    ensures Write(w, f, novo) == (w & NegMask(f)) | (novo << Shift(f))
  {
    AIsTable(w, novo);
  }

  lemma AReadBackByName(w: bv32, f: Field, v: bv32, v': bv32)
    requires f == A && v < Limit(f)
    ensures Read(Write(w, f, v), f) == v
    ensures Write(Write(w, f, v), f, v') == Write(w, f, v')
    ensures Write(w, f, Read(w, f)) == w
  {
    WriteAThenRead(w, v);
    WriteATwice(w, v, v');
    WriteARestores(w);
  }

  lemma CByName(w: bv32, f: Field, novo: bv32)
    requires f == C
    ensures Read(w, f) == (w & PosMask(f)) >> Shift(f)
    ensures Write(w, f, novo) == (w & NegMask(f)) | (novo << Shift(f))
  {
    CIsTable(w, novo);
  }

  lemma CReadBackByName(w: bv32, f: Field, v: bv32, v': bv32)
    requires f == C && v < Limit(f)
    ensures Read(Write(w, f, v), f) == v
    ensures Write(Write(w, f, v), f, v') == Write(w, f, v')
    ensures Write(w, f, Read(w, f)) == w
  {
    WriteCThenRead(w, v);
    WriteCTwice(w, v, v');
    WriteCRestores(w);
  }

  lemma CVByName(w: bv32, f: Field, novo: bv32)
    requires f == CV
    ensures Read(w, f) == (w & PosMask(f)) >> Shift(f)
    ensures Write(w, f, novo) == (w & NegMask(f)) | (novo << Shift(f))
  {
    CVIsTable(w, novo);
  }

  lemma CVReadBackByName(w: bv32, f: Field, v: bv32, v': bv32)
    requires f == CV && v < Limit(f)
    ensures Read(Write(w, f, v), f) == v
    ensures Write(Write(w, f, v), f, v') == Write(w, f, v')
    ensures Write(w, f, Read(w, f)) == w
  {
    WriteCVThenRead(w, v);
    WriteCVTwice(w, v, v');
    WriteCVRestores(w);
  }

  lemma XByName(w: bv32, f: Field, novo: bv32)
    requires f == X
    ensures Read(w, f) == (w & PosMask(f)) >> Shift(f)
    ensures Write(w, f, novo) == (w & NegMask(f)) | (novo << Shift(f))
  {
    XIsTable(w, novo);
  }

  lemma XReadBackByName(w: bv32, f: Field, v: bv32, v': bv32)
    requires f == X && v < Limit(f)
    ensures Read(Write(w, f, v), f) == v
    ensures Write(Write(w, f, v), f, v') == Write(w, f, v')
    ensures Write(w, f, Read(w, f)) == w
  {
    WriteXThenRead(w, v);
    WriteXTwice(w, v, v');
    WriteXRestores(w);
  }

  lemma LByName(w: bv32, f: Field, novo: bv32)
    requires f == L
    ensures Read(w, f) == (w & PosMask(f)) >> Shift(f)
    ensures Write(w, f, novo) == (w & NegMask(f)) | (novo << Shift(f))
  {
    LIsTable(w, novo);
  }

  lemma LReadBackByName(w: bv32, f: Field, v: bv32, v': bv32)
    requires f == L && v < Limit(f)
    ensures Read(Write(w, f, v), f) == v
    ensures Write(Write(w, f, v), f, v') == Write(w, f, v')
    ensures Write(w, f, Read(w, f)) == w
  {
    WriteLThenRead(w, v);
    WriteLTwice(w, v, v');
    WriteLRestores(w);
  }

  lemma YByName(w: bv32, f: Field, novo: bv32)
    requires f == Y
    ensures Read(w, f) == (w & PosMask(f)) >> Shift(f)
    ensures Write(w, f, novo) == (w & NegMask(f)) | (novo << Shift(f))
  {
    YIsTable(w, novo);
  }

  lemma YReadBackByName(w: bv32, f: Field, v: bv32, v': bv32)
    requires f == Y && v < Limit(f)
    ensures Read(Write(w, f, v), f) == v
    ensures Write(Write(w, f, v), f, v') == Write(w, f, v')
    ensures Write(w, f, Read(w, f)) == w
  {
    WriteYThenRead(w, v);
    WriteYTwice(w, v, v');
    WriteYRestores(w);
  }

  lemma QByName(w: bv32, f: Field, novo: bv32)
    requires f == Q
    ensures Read(w, f) == (w & PosMask(f)) >> Shift(f)
    ensures Write(w, f, novo) == (w & NegMask(f)) | (novo << Shift(f))
  {
    QIsTable(w, novo);
  }

  lemma QReadBackByName(w: bv32, f: Field, v: bv32, v': bv32)
    requires f == Q && v < Limit(f)
    ensures Read(Write(w, f, v), f) == v
    ensures Write(Write(w, f, v), f, v') == Write(w, f, v')
    ensures Write(w, f, Read(w, f)) == w
  {
    WriteQThenRead(w, v);
    WriteQTwice(w, v, v');
    WriteQRestores(w);
  }

  /** Read and Write use the tabulated masks and shift of their attribute. */
  lemma ReadWriteIsTable(w: bv32, f: Field, novo: bv32)
    ensures Read(w, f) == (w & PosMask(f)) >> Shift(f)
    ensures Write(w, f, novo) == (w & NegMask(f)) | (novo << Shift(f))
  {
    match f
    case R => RByName(w, f, novo);
    case T => TByName(w, f, novo);
    case F => FByName(w, f, novo);
    case M => MByName(w, f, novo);
    case K => KByName(w, f, novo);
    case CR => CRByName(w, f, novo);
    case S => SByName(w, f, novo);
    case FE => FEByName(w, f, novo);
    case SD => SDByName(w, f, novo);
    case ST => STByName(w, f, novo);
    case SC => SCByName(w, f, novo);
    case A => AByName(w, f, novo);
    case C => CByName(w, f, novo);
    case CV => CVByName(w, f, novo);
    case X => XByName(w, f, novo);
    case L => LByName(w, f, novo);
    case Y => YByName(w, f, novo);
    case Q => QByName(w, f, novo);
  }

  /**
   * On a word: a value below the limit is read back, a second write
   * overrides the first and writing back the value read changes nothing.
   */
  lemma WriteThenRead(w: bv32, f: Field, v: bv32, v': bv32)
    requires v < Limit(f)
    ensures Read(Write(w, f, v), f) == v
    ensures Write(Write(w, f, v), f, v') == Write(w, f, v')
    ensures Write(w, f, Read(w, f)) == w
  {
    match f
    case R => RReadBackByName(w, f, v, v');
    case T => TReadBackByName(w, f, v, v');
    case F => FReadBackByName(w, f, v, v');
    case M => MReadBackByName(w, f, v, v');
    case K => KReadBackByName(w, f, v, v');
    case CR => CRReadBackByName(w, f, v, v');
    case S => SReadBackByName(w, f, v, v');
    case FE => FEReadBackByName(w, f, v, v');
    case SD => SDReadBackByName(w, f, v, v');
    case ST => STReadBackByName(w, f, v, v');
    case SC => SCReadBackByName(w, f, v, v');
    case A => AReadBackByName(w, f, v, v');
    case C => CReadBackByName(w, f, v, v');
    case CV => CVReadBackByName(w, f, v, v');
    case X => XReadBackByName(w, f, v, v');
    case L => LReadBackByName(w, f, v, v');
    case Y => YReadBackByName(w, f, v, v');
    case Q => QReadBackByName(w, f, v, v');
  }
  /**
   * GET_H and SET_H by attribute name use the tables: attribute f is its
   * word under the positive mask, shifted down; a write replaces that word,
   * and only that word, by the old word cleared with the negative mask and
   * or'd with the value shifted up.
   */
  lemma FieldIsTable(h: Human, f: Field, novo: bv32)
    ensures Get(h, f) == (WordOf(h, TiraOf(f)) & PosMask(f)) >> Shift(f)
    ensures WithField(h, f, novo) ==
      WithWord(h, TiraOf(f), (WordOf(h, TiraOf(f)) & NegMask(f)) | (novo << Shift(f)))
  {
    ReadWriteIsTable(WordOf(h, TiraOf(f)), f, novo);
  }

  /**
   * By attribute name: a value below the limit is read back; the id, the other
   * three words and every attribute stored in them are kept; a second write
   * overrides the first; writing back the value read changes nothing.
   */
  lemma WithFieldReadBack(h: Human, f: Field, v: bv32, v': bv32)
    requires v < Limit(f)
    ensures Get(WithField(h, f, v), f) == v
    ensures WithField(h, f, v).id == h.id
    ensures forall t :: t != TiraOf(f) ==> WordOf(WithField(h, f, v), t) == WordOf(h, t)
    ensures forall g :: TiraOf(g) != TiraOf(f) ==> Get(WithField(h, f, v), g) == Get(h, g)
    ensures WithField(WithField(h, f, v), f, v') == WithField(h, f, v')
    ensures WithField(h, f, Get(h, f)) == h
  {
    var w := WordOf(h, TiraOf(f));
    WriteThenRead(w, f, v, v');
    WithWordTwice(h, TiraOf(f), Write(w, f, v), Write(Write(w, f, v), f, v'));
    WithWordSame(h, TiraOf(f));
  }

  /** GET_H and the GET_*_H(i) macros: attribute f of element i of the array. */
  function GetAt(humanos: array<Human>, i: nat, f: Field): bv32
    reads humanos
    requires i < humanos.Length
  {
    Get(humanos[i], f)
  }

  /** GET_ID_H(i): the identifier of element i of the array. */
  function GetIdAt(humanos: array<Human>, i: nat): bv32
    reads humanos
    requires i < humanos.Length
  {
    humanos[i].id
  }

  /** SET_H and the SET_*_H(i, novo) macros: rewrites one word of element i in place. */
  method SetAt(humanos: array<Human>, i: nat, f: Field, novo: int)
    requires i < humanos.Length
    modifies humanos
    ensures humanos[..] == old(humanos[..])[i := WithField(old(humanos[i]), f, Unsigned(novo))]
    ensures humanos[i].id == old(humanos[i].id)
    ensures Unsigned(novo) < Limit(f) ==> GetAt(humanos, i, f) == Unsigned(novo)
  {
    ghost var before := humanos[i];
    humanos[i] := WithField(humanos[i], f, Unsigned(novo));
    if Unsigned(novo) < Limit(f) {
      WithFieldReadBack(before, f, Unsigned(novo), Unsigned(novo));
    }
  }

  /** SET_ID_H(i, novo): overwrites the identifier of element i and nothing else. */
  method SetIdAt(humanos: array<Human>, i: nat, novo: int)
    requires i < humanos.Length
    modifies humanos
    ensures humanos[..] == old(humanos[..])[i := old(humanos[i]).(id := Unsigned(novo))]
  {
    humanos[i] := humanos[i].(id := Unsigned(novo));
  }

}
