/**
 * The human of the graph simulator's top namespace whose operators
 * src/simulator/agents/human.cpp defines: a dengue state, an identifier and a
 * position, without the dwell counter of the `agent` namespace's human.
 * Equality and the hash look at `id` alone.
 */
module SimulatorHuman {
  import AgentHuman

  type State = AgentHuman.State

  datatype Human = Human(state: State, id: nat, position: nat)

  /** `operator==`: two humans are equal when their ids are. */
  predicate Equals(a: Human, b: Human) {
    a.id == b.id
  }

  /** The hash: the standard hash of `size_t`, passed in as `hashId`, applied to the id. */
  function Hash(h: Human, hashId: nat -> nat): nat {
    hashId(h.id)
  }

  /** The copy into the `agent` namespace's human, with the given counter. */
  function ToAgent(h: Human, counter: nat): AgentHuman.Human {
    AgentHuman.Human(h.state, h.id, h.position, counter)
  }

  /** Equality and hash agree with the `agent` namespace's human, whatever the counters. */
  lemma AgreesWithAgent(a: Human, b: Human, ca: nat, cb: nat, hashId: nat -> nat)
    ensures Equals(a, b) <==> AgentHuman.Equals(ToAgent(a, ca), ToAgent(b, cb))
    ensures Hash(a, hashId) == AgentHuman.Hash(ToAgent(a, ca), hashId)
  {
  }

  /** Two humans are equal exactly when they differ in state and position at most. */
  lemma EqualsIgnoresMutableFields(a: Human, b: Human)
    ensures Equals(a, b) <==> b.(state := a.state, position := a.position) == a
  {
  }

  /** Equality is reflexive, symmetric and transitive. */
  lemma EqualsIsEquivalence(a: Human, b: Human, c: Human)
    ensures Equals(a, a)
    ensures Equals(a, b) ==> Equals(b, a)
    ensures Equals(a, b) && Equals(b, c) ==> Equals(a, c)
  {
  }

  /** Equal humans hash alike, and the hash is a function of the id alone. */
  lemma EqualsAgreesWithHash(a: Human, b: Human, hashId: nat -> nat)
    requires Equals(a, b)
    ensures Hash(a, hashId) == Hash(b, hashId) == hashId(a.id)
  {
  }
}
