/**
 * The representation shared by the packed human and mosquito records of the
 * GPU simulator: an identifier and four 32-bit words ("tiras"), every
 * attribute a bit field read by mask-then-shift and written by
 * clear-then-or. The per-agent modules give each attribute its word, shift,
 * width and masks.
 */
module Packed {

  /** The four 32-bit words of a packed agent. */
  datatype Tira = T1 | T2 | T3 | T4

  /** `unsigned id, t1, t2, t3, t4`: the layout of both agent structs. */
  datatype Record = Record(id: bv32, t1: bv32, t2: bv32, t3: bv32, t4: bv32)

  function WordOf(r: Record, t: Tira): bv32 {
    match t
    case T1 => r.t1
    case T2 => r.t2
    case T3 => r.t3
    case T4 => r.t4
  }

  /** The record with word t replaced and everything else kept. */
  function WithWord(r: Record, t: Tira, w: bv32): (r': Record)
    ensures WordOf(r', t) == w
    ensures r'.id == r.id
    ensures forall u :: u != t ==> WordOf(r', u) == WordOf(r, u)
  {
    match t
    case T1 => r.(t1 := w)
    case T2 => r.(t2 := w)
    case T3 => r.(t3 := w)
    case T4 => r.(t4 := w)
  }

  /** Two records agree when their ids and all four words agree. */
  lemma RecordExtensionality(r: Record, r': Record)
    requires r.id == r'.id
    requires forall t :: WordOf(r, t) == WordOf(r', t)
    ensures r == r'
  {
    assert WordOf(r, T1) == WordOf(r', T1);
    assert WordOf(r, T2) == WordOf(r', T2);
    assert WordOf(r, T3) == WordOf(r', T3);
    assert WordOf(r, T4) == WordOf(r', T4);
  }

  /** Writing the same word twice is writing it once, with the second value. */
  lemma WithWordTwice(r: Record, t: Tira, w: bv32, w': bv32)
    ensures WithWord(WithWord(r, t, w), t, w') == WithWord(r, t, w')
  {
    RecordExtensionality(WithWord(WithWord(r, t, w), t, w'), WithWord(r, t, w'));
  }

  /** Writing back the word already there changes nothing. */
  lemma WithWordSame(r: Record, t: Tira)
    ensures WithWord(r, t, WordOf(r, t)) == r
  {
    RecordExtensionality(WithWord(r, t, WordOf(r, t)), r);
  }

  /**
   * `(unsigned)(novo)`: C's conversion of a (possibly negative) int to a 32-bit
   * unsigned reduces modulo 2^32; Dafny's `%` is Euclidean, so it agrees.
   */
  function Unsigned(novo: int): bv32 {
    (novo % 0x1_0000_0000) as bv32
  }

  /** A field of `wd` bits above `s` bits lies inside a 32-bit word. */
  predicate Fits(s: bv32, wd: bv32) {
    0 < wd < 32 && s < 32 && s + wd <= 32
  }

  /** The positive mask of a field of `wd` bits above `s` bits: (2^wd - 1) << s. */
  function FieldMask(s: bv32, wd: bv32): bv32
    requires Fits(s, wd)
  {
    (((1 as bv32) << wd) - 1) << s
  }
}
