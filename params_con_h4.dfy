/**
 * The access macros of the human control input file (4-CON.csv): the
 * natural death rate, its only parameter.
 */
module ParamsConH4 {
  import opened Parameters

  datatype Macro =
    | TaxaMorteNatural
    | TaxaMorteNaturalPer   // the `_ (per)` form

  /** The slots each macro's index expression reads, as written. */
  function ReadOf(m: Macro): Read {
    match m
    case TaxaMorteNatural => Pair(DESL_4_CON_H + 0)
    case TaxaMorteNaturalPer => Pair(DESL_4_CON_H + 0)
  }

  /** Both forms read the pair of CON001, slots 514 and 515, the whole slice. */
  lemma ReadsItsParameter(m: Macro)
    ensures ReadsParameter(ReadOf(m), ConH4, 1)
    ensures Slots(ReadOf(m)) == {514, 515}
    ensures forall s :: s in Slots(ReadOf(m)) <==> InSlice(s, ConH4)
  {
  }

  /** The value a macro yields from the parameter vector p and the percentage per. */
  function Value(p: seq<real>, m: Macro, per: real): real
    requires |p| == N_PAR
  {
    ReadsItsParameter(m);
    ParameterWithinVector(ReadOf(m), ConH4, 1);
    Resolve(p, ReadOf(m), ToDouble, per)
  }

  /** With min < max and 0 <= per < 1 the natural death rate lies in [min, max). */
  lemma RateInRange(p: seq<real>, m: Macro, per: real)
    requires |p| == N_PAR && p[514] < p[515] && 0.0 <= per < 1.0
    ensures p[514] <= Value(p, m, per) < p[515]
  {
    ResolvedInRange(p, 514, per);
  }

  /** Both forms yield the same rate for the same percentage. */
  lemma VariantAgrees(p: seq<real>, per: real)
    requires |p| == N_PAR
    ensures Value(p, TaxaMorteNaturalPer, per) == Value(p, TaxaMorteNatural, per)
  {
  }
}
