/**
 * The mosquito of the graph simulator's top namespace whose operators
 * src/simulator/mosquito.cpp defines. It has the same fields as the `agent`
 * namespace's mosquito, and its equality and hash are stated here and
 * related to that one.
 */
module SimulatorMosquito {
  import AgentMosquito

  type State = AgentMosquito.State

  datatype Mosquito = Mosquito(state: State, id: nat, position: nat, counter: nat)

  /** `operator==`: two mosquitos are equal when their ids are. */
  predicate Equals(a: Mosquito, b: Mosquito) {
    a.id == b.id
  }

  /** The hash: the standard hash of `size_t`, passed in as `hashId`, applied to the id. */
  function Hash(m: Mosquito, hashId: nat -> nat): nat {
    hashId(m.id)
  }

  /** The field-by-field copy into the `agent` namespace's mosquito. */
  function ToAgent(m: Mosquito): AgentMosquito.Mosquito {
    AgentMosquito.Mosquito(m.state, m.id, m.position, m.counter)
  }

  /** Equality and hash agree with the `agent` namespace's mosquito under the copy. */
  lemma AgreesWithAgent(a: Mosquito, b: Mosquito, hashId: nat -> nat)
    ensures Equals(a, b) <==> AgentMosquito.Equals(ToAgent(a), ToAgent(b))
    ensures Hash(a, hashId) == AgentMosquito.Hash(ToAgent(a), hashId)
  {
  }

  /** Two mosquitos are equal exactly when they differ in the mutable fields at most. */
  lemma EqualsIgnoresMutableFields(a: Mosquito, b: Mosquito)
    ensures Equals(a, b) <==> b.(state := a.state, position := a.position, counter := a.counter) == a
  {
  }

  /** Equality is reflexive, symmetric and transitive. */
  lemma EqualsIsEquivalence(a: Mosquito, b: Mosquito, c: Mosquito)
    ensures Equals(a, a)
    ensures Equals(a, b) ==> Equals(b, a)
    ensures Equals(a, b) && Equals(b, c) ==> Equals(a, c)
  {
  }

  /** Equal mosquitos hash alike, and the hash is a function of the id alone. */
  lemma EqualsAgreesWithHash(a: Mosquito, b: Mosquito, hashId: nat -> nat)
    requires Equals(a, b)
    ensures Hash(a, hashId) == Hash(b, hashId) == hashId(a.id)
  {
  }
}
