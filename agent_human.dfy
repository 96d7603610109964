/**
 * The human agent of the graph simulator's `agent` namespace: a dengue
 * state, an identifier, a position (a point id) and a dwell counter. State,
 * position and counter are mutable inside a hashed container; `id` is not.
 * Equality and the hash look at `id` alone.
 */
module AgentHuman {
  datatype State = Susceptible | Exposed | Infected | Recovered

  /** The character each state is stored as. */
  function Code(s: State): char {
    match s
    case Susceptible => 's'
    case Exposed => 'e'
    case Infected => 'i'
    case Recovered => 'r'
  }

  datatype Human = Human(state: State, id: nat, position: nat, counter: nat)

  /** `operator==`: two humans are equal when their ids are. */
  predicate Equals(a: Human, b: Human) {
    a.id == b.id
  }

  /** The hash: the standard hash of `size_t`, passed in as `hashId`, applied to the id. */
  function Hash(h: Human, hashId: nat -> nat): nat {
    hashId(h.id)
  }

  /** Distinct states are stored as distinct characters. */
  lemma CodeInjective(s: State, t: State)
    requires Code(s) == Code(t)
    ensures s == t
  {
  }

  /** Two humans are equal exactly when they differ in the mutable fields at most. */
  lemma EqualsIgnoresMutableFields(a: Human, b: Human)
    ensures Equals(a, b) <==> b.(state := a.state, position := a.position, counter := a.counter) == a
  {
  }

  /** Equality is reflexive, symmetric and transitive. */
  lemma EqualsIsEquivalence(a: Human, b: Human, c: Human)
    ensures Equals(a, a)
    ensures Equals(a, b) ==> Equals(b, a)
    ensures Equals(a, b) && Equals(b, c) ==> Equals(a, c)
  {
  }

  /** Equal humans hash alike, whatever hash of ids is used. */
  lemma EqualsAgreesWithHash(a: Human, b: Human, hashId: nat -> nat)
    requires Equals(a, b)
    ensures Hash(a, hashId) == Hash(b, hashId)
  {
  }

  /** Updating the mutable fields keeps a human equal to itself and its hash unchanged. */
  lemma MutationKeepsIdentity(h: Human, s: State, p: nat, c: nat, hashId: nat -> nat)
    ensures Equals(h, h.(state := s, position := p, counter := c))
    ensures Hash(h.(state := s, position := p, counter := c), hashId) == Hash(h, hashId)
  {
  }
}
