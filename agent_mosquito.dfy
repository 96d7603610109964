/**
 * The mosquito agent of the graph simulator's `agent` namespace: a dengue
 * state, an identifier, a position and a dwell counter; equality and the
 * hash look at `id` alone.
 */
module AgentMosquito {
  datatype State = Susceptible | Infected | Recovered

  /** The character each state is stored as. */
  function Code(s: State): char {
    match s
    case Susceptible => 's'
    case Infected => 'i'
    case Recovered => 'r'
  }

  datatype Mosquito = Mosquito(state: State, id: nat, position: nat, counter: nat)

  /** `operator==`: two mosquitos are equal when their ids are. */
  predicate Equals(a: Mosquito, b: Mosquito) {
    a.id == b.id
  }

  /** The hash: the standard hash of `size_t`, passed in as `hashId`, applied to the id. */
  function Hash(m: Mosquito, hashId: nat -> nat): nat {
    hashId(m.id)
  }

  /** Distinct states are stored as distinct characters. */
  lemma CodeInjective(s: State, t: State)
    requires Code(s) == Code(t)
    ensures s == t
  {
  }

  /** Two mosquitos are equal exactly when they differ in the mutable fields at most. */
  lemma EqualsIgnoresMutableFields(a: Mosquito, b: Mosquito)
    ensures Equals(a, b) <==> b.(state := a.state, position := a.position, counter := a.counter) == a
  {
  }

  /** Equality is reflexive, symmetric and transitive. */
  lemma EqualsIsEquivalence(a: Mosquito, b: Mosquito, c: Mosquito)
    ensures Equals(a, a)
    ensures Equals(a, b) ==> Equals(b, a)
    ensures Equals(a, b) && Equals(b, c) ==> Equals(a, c)
  {
  }

  /** Equal mosquitos hash alike, whatever hash of ids is used. */
  lemma EqualsAgreesWithHash(a: Mosquito, b: Mosquito, hashId: nat -> nat)
    requires Equals(a, b)
    ensures Hash(a, hashId) == Hash(b, hashId)
  {
  }

  /** The hash is a function of the id alone. */
  lemma HashDependsOnIdOnly(a: Mosquito, b: Mosquito, hashId: nat -> nat)
    requires a.id == b.id
    ensures Hash(a, hashId) == Hash(b, hashId)
    ensures Hash(a, hashId) == hashId(a.id)
  {
  }
}
