/**
 * `Agent`, the graph simulator's variant over the `agent` namespace's human
 * and mosquito, and its hash: whichever alternative it holds, the hash of
 * that agent's id.
 */
module AgentVariant {
  import AgentHuman
  import AgentMosquito

  datatype Agent =
    | HumanAgent(human: AgentHuman.Human)
    | MosquitoAgent(mosquito: AgentMosquito.Mosquito)

  /** The hash, visiting the alternative held; `hashId` is the standard hash of `size_t`. */
  function Hash(a: Agent, hashId: nat -> nat): nat {
    match a
    case HumanAgent(h) => hashId(h.id)
    case MosquitoAgent(m) => hashId(m.id)
  }

  /** The id of the alternative held. */
  function Id(a: Agent): nat {
    match a
    case HumanAgent(h) => h.id
    case MosquitoAgent(m) => m.id
  }

  /** A human agent hashes as its human does, a mosquito agent as its mosquito does. */
  lemma HashOfAlternative(h: AgentHuman.Human, m: AgentMosquito.Mosquito, hashId: nat -> nat)
    ensures Hash(HumanAgent(h), hashId) == AgentHuman.Hash(h, hashId)
    ensures Hash(MosquitoAgent(m), hashId) == AgentMosquito.Hash(m, hashId)
  {
  }

  /** A human and a mosquito with the same id get the same hash. */
  lemma SameIdSameHash(h: AgentHuman.Human, m: AgentMosquito.Mosquito, hashId: nat -> nat)
    requires h.id == m.id
    ensures Hash(HumanAgent(h), hashId) == Hash(MosquitoAgent(m), hashId)
  {
  }

  /** The hash ignores every field but the id, and which alternative is held. */
  lemma HashDependsOnIdOnly(a: Agent, b: Agent, hashId: nat -> nat)
    requires Id(a) == Id(b)
    ensures Hash(a, hashId) == Hash(b, hashId) == hashId(Id(a))
  {
  }
}
