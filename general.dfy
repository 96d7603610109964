/**
 * The constants shared by the whole simulator: the periods of a cycle, the
 * enumeration codes stored in the agents' bit fields and their counts, the
 * column counts of the quantity outputs, and the row-major linearisation of
 * a matrix.
 */
module General {
  import HumanBits
  import MosquitoBits

  // Periods of a cycle.
  const MANHA: nat := 0
  const TARDE: nat := 1
  const NOITE: nat := 2
  const N_PERIODOS: nat := 3

  // Columns of the quantity outputs.
  const N_COLS_H: nat := 360
  const N_COLS_MD: nat := 150
  const N_COLS_MW: nat := 20

  // Street lots belong to block 0.
  const RUA: nat := 0

  // Dengue states (SD).
  const SUSCETIVEL: nat := 1
  const EXPOSTO: nat := 2
  const INFECTANTE: nat := 3
  const HEMORRAGICO: nat := 4
  const IMUNIZADO: nat := 5
  const RECUPERADO: nat := 6
  const N_ESTADOS_H: nat := 6
  const N_ESTADOS_MD: nat := 3
  const N_ESTADOS_MW: nat := 2

  // Life of a mosquito (VD).
  const VIVO: nat := 1
  const MORTO: nat := 0

  // Sexes (S).
  const MASCULINO: nat := 0
  const FEMININO: nat := 1
  const MACHO: nat := 0
  const FEMEA: nat := 1
  const N_SEXOS: nat := 2

  // Serotypes (ST).
  const SOROTIPO_1: nat := 1
  const SOROTIPO_2: nat := 2
  const SOROTIPO_3: nat := 3
  const SOROTIPO_4: nat := 4
  const N_SOROTIPOS: nat := 4

  // Human age groups (FE).
  const BEBE: nat := 0
  const CRIANCA: nat := 1
  const ADOLESCENTE: nat := 2
  const JOVEM: nat := 3
  const ADULTO: nat := 4
  const IDOSO: nat := 5
  const N_IDADES: nat := 6

  // Human movement types (K).
  const LOCAL: nat := 0
  const ALEATORIO: nat := 1
  const LIVRE: nat := 2
  const TRAJETO: nat := 3
  const N_MOVS: nat := 4

  // Mosquito offspring types (PR).
  const SAUDAVEL: nat := 0
  const WOLBACHIA: nat := 1
  const ESTERIL: nat := 2

  // Mosquito phases (FS).
  const OVO: nat := 0
  const LARVA: nat := 1
  const PUPA: nat := 2
  const ATIVA: nat := 3
  const DECADENTE: nat := 4
  const N_FASES: nat := 5

  // Mosquito mating types (TA).
  const NENHUM: nat := 0
  const ACA_SAUDAVEL: nat := 1
  const ACA_INFECTADO: nat := 2

  // Influence of the environmental treatment on mosquito movement (TI).
  const SEM_INFLUENCIA: nat := 0
  const PARADO: nat := 1
  const ESPANTADO: nat := 2

  // Feeding of a mosquito (AM).
  const ALIMENTADO: nat := 1
  const NAO_ALIMENTADO: nat := 0

  /** VEC(i, j, nc): the position of cell (i, j) of a matrix with nc columns. */
  function Vec(i: int, j: int, nc: int): int {
    i * nc + j
  }

  /** The row of position v in a matrix with nc columns. */
  function Row(v: nat, nc: nat): nat
    requires 0 < nc
  {
    v / nc
  }

  /** The column of position v in a matrix with nc columns. */
  function Col(v: nat, nc: nat): nat
    requires 0 < nc
  {
    v % nc
  }

  /** Row and Col invert Vec on the cells of the matrix. */
  lemma VecInverse(i: nat, j: nat, nc: nat)
    requires j < nc
    ensures Vec(i, j, nc) >= 0
    ensures Row(Vec(i, j, nc), nc) == i && Col(Vec(i, j, nc), nc) == j
  {
    var v := Vec(i, j, nc);
    assert v == nc * i + j;
    DivModUnique(v, nc, i, j);
  }

  /** Vec maps every position back to itself through Row and Col. */
  lemma VecOfRowCol(v: nat, nc: nat)
    requires 0 < nc
    ensures Col(v, nc) < nc
    ensures Vec(Row(v, nc), Col(v, nc), nc) == v
  {
  }

  /** Distinct cells of a matrix have distinct positions. */
  lemma VecInjective(i: nat, j: nat, i': nat, j': nat, nc: nat)
    requires j < nc && j' < nc
    requires Vec(i, j, nc) == Vec(i', j', nc)
    ensures i == i' && j == j'
  {
    VecInverse(i, j, nc);
    VecInverse(i', j', nc);
  }

  /** Euclidean division has a unique quotient and remainder. */
  lemma DivModUnique(v: nat, nc: nat, q: nat, r: nat)
    requires r < nc && v == nc * q + r
    ensures v / nc == q && v % nc == r
  {
    var q', r' := v / nc, v % nc;
    assert v == nc * q' + r';
    if q' < q {
      MulLess(nc, q', q);
    } else if q < q' {
      MulLess(nc, q, q');
    }
  }

  /** A larger factor gives a product larger by at least nc. */
  lemma MulLess(nc: nat, a: nat, b: nat)
    requires a < b
    ensures nc * a + nc <= nc * b
  {
    MulStep(nc, a, b - a - 1);
  }

  /** MulLess stated over the step between the factors. */
  lemma MulStep(nc: nat, a: nat, e: nat)
    ensures nc * a + nc <= nc * (a + e + 1)
  {
    assert 0 <= nc * e;
  }

  /** The column counts are the products their comments state. */
  lemma ColumnCounts()
    ensures N_COLS_H == N_SEXOS * N_IDADES * N_ESTADOS_H * (N_SOROTIPOS + 1)
    ensures N_COLS_MD == N_SEXOS * N_FASES * N_ESTADOS_MD * (N_SOROTIPOS + 1)
    ensures N_COLS_MW == N_SEXOS * N_FASES * N_ESTADOS_MW
  {
  }

  /** The codes of an enumeration, in the order they are listed. */
  const HumanDengueStates: seq<nat> := [SUSCETIVEL, EXPOSTO, INFECTANTE, HEMORRAGICO, IMUNIZADO, RECUPERADO]
  const MosquitoDengueStates: seq<nat> := [SUSCETIVEL, EXPOSTO, INFECTANTE]
  const Sexes: seq<nat> := [MASCULINO, FEMININO]
  const Serotypes: seq<nat> := [SOROTIPO_1, SOROTIPO_2, SOROTIPO_3, SOROTIPO_4]
  const AgeGroups: seq<nat> := [BEBE, CRIANCA, ADOLESCENTE, JOVEM, ADULTO, IDOSO]
  const Movements: seq<nat> := [LOCAL, ALEATORIO, LIVRE, TRAJETO]
  const Phases: seq<nat> := [OVO, LARVA, PUPA, ATIVA, DECADENTE]
  const Offspring: seq<nat> := [SAUDAVEL, WOLBACHIA, ESTERIL]
  const Matings: seq<nat> := [NENHUM, ACA_SAUDAVEL, ACA_INFECTADO]
  const Influences: seq<nat> := [SEM_INFLUENCIA, PARADO, ESPANTADO]

  /** The codes of s are pairwise distinct. */
  predicate Distinct(s: seq<nat>) {
    forall a, b :: 0 <= a < b < |s| ==> s[a] != s[b]
  }

  /** Every code of s is below the limit of a field. */
  predicate AllBelow(s: seq<nat>, limit: nat) {
    forall a :: 0 <= a < |s| ==> s[a] < limit
  }

  /** Each enumeration lists distinct codes, as many as its count constant says. */
  lemma EnumerationsMatchCounts()
    ensures Distinct(HumanDengueStates) && |HumanDengueStates| == N_ESTADOS_H
    ensures Distinct(MosquitoDengueStates) && |MosquitoDengueStates| == N_ESTADOS_MD
    ensures Distinct(Sexes) && |Sexes| == N_SEXOS
    ensures Distinct(Serotypes) && |Serotypes| == N_SOROTIPOS
    ensures Distinct(AgeGroups) && |AgeGroups| == N_IDADES
    ensures Distinct(Movements) && |Movements| == N_MOVS
    ensures Distinct(Phases) && |Phases| == N_FASES
  {
  }

  /** The codes stored in a human fit the bit fields that store them. */
  lemma HumanCodesFitFields()
    ensures AllBelow(HumanDengueStates, HumanBits.Limit(HumanBits.SD) as nat)
    ensures AllBelow(Sexes, HumanBits.Limit(HumanBits.S) as nat)
    ensures AllBelow(Serotypes, HumanBits.Limit(HumanBits.ST) as nat)
    ensures AllBelow(AgeGroups, HumanBits.Limit(HumanBits.FE) as nat)
    ensures AllBelow(Movements, HumanBits.Limit(HumanBits.K) as nat)
  {
    assert HumanBits.Limit(HumanBits.SD) as nat == 8;
    assert HumanBits.Limit(HumanBits.S) as nat == 2;
    assert HumanBits.Limit(HumanBits.ST) as nat == 8;
    assert HumanBits.Limit(HumanBits.FE) as nat == 8;
    assert HumanBits.Limit(HumanBits.K) as nat == 4;
  }

  /** The codes stored in a mosquito fit the bit fields that store them. */
  lemma MosquitoCodesFitFields()
    ensures AllBelow(MosquitoDengueStates, MosquitoBits.Limit(MosquitoBits.SD) as nat)
    ensures AllBelow(Sexes, MosquitoBits.Limit(MosquitoBits.S) as nat)
    ensures AllBelow(Serotypes, MosquitoBits.Limit(MosquitoBits.ST) as nat)
    ensures AllBelow(Phases, MosquitoBits.Limit(MosquitoBits.FS) as nat)
    ensures AllBelow(Offspring, MosquitoBits.Limit(MosquitoBits.PR) as nat)
    ensures AllBelow(Matings, MosquitoBits.Limit(MosquitoBits.TA) as nat)
    ensures AllBelow(Influences, MosquitoBits.Limit(MosquitoBits.TI) as nat)
    ensures AllBelow([MORTO, VIVO], MosquitoBits.Limit(MosquitoBits.VD) as nat)
    ensures AllBelow([NAO_ALIMENTADO, ALIMENTADO], MosquitoBits.Limit(MosquitoBits.AM) as nat)
  {
    assert MosquitoBits.Limit(MosquitoBits.SD) as nat == 4;
    assert MosquitoBits.Limit(MosquitoBits.S) as nat == 2;
    assert MosquitoBits.Limit(MosquitoBits.ST) as nat == 8;
    assert MosquitoBits.Limit(MosquitoBits.FS) as nat == 8;
    assert MosquitoBits.Limit(MosquitoBits.PR) as nat == 8;
    assert MosquitoBits.Limit(MosquitoBits.TA) as nat == 4;
    assert MosquitoBits.Limit(MosquitoBits.TI) as nat == 4;
    assert MosquitoBits.Limit(MosquitoBits.VD) as nat == 2;
    assert MosquitoBits.Limit(MosquitoBits.AM) as nat == 2;
  }

  /** A dengue state stored in a human's SD field reads back unchanged. */
  lemma HumanStateRoundTrip(h: HumanBits.Human, a: nat)
    requires a < |HumanDengueStates|
    ensures HumanBits.GetSD(HumanBits.WithSD(h, HumanDengueStates[a] as bv32)) as nat == HumanDengueStates[a]
  {
    var c := HumanDengueStates[a] as bv32;
    assert c < 8;
    HumanBits.SetSD(h, c, c);
  }

  /** A dengue state stored in a mosquito's SD field reads back unchanged. */
  lemma MosquitoStateRoundTrip(m: MosquitoBits.Mosquito, a: nat)
    requires a < |MosquitoDengueStates|
    ensures MosquitoBits.GetSD(MosquitoBits.WithSD(m, MosquitoDengueStates[a] as bv32)) as nat == MosquitoDengueStates[a]
  {
    var c := MosquitoDengueStates[a] as bv32;
    assert c < 4;
    MosquitoBits.SetSD(m, c, c);
  }

  /** A phase stored in a mosquito's FS field reads back unchanged. */
  lemma PhaseRoundTrip(m: MosquitoBits.Mosquito, a: nat)
    requires a < |Phases|
    ensures MosquitoBits.GetFS(MosquitoBits.WithFS(m, Phases[a] as bv32)) as nat == Phases[a]
  {
    var c := Phases[a] as bv32;
    assert c < 8;
    MosquitoBits.SetFS(m, c, c);
  }

  /** An age group stored in a human's FE field reads back unchanged. */
  lemma AgeGroupRoundTrip(h: HumanBits.Human, a: nat)
    requires a < |AgeGroups|
    ensures HumanBits.GetFE(HumanBits.WithFE(h, AgeGroups[a] as bv32)) as nat == AgeGroups[a]
  {
    var c := AgeGroups[a] as bv32;
    assert c < 8;
    HumanBits.SetFE(h, c, c);
  }
}
