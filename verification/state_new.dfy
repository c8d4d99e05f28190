/**
 * The observation converters of halite/interpreter/state_new.py: records for
 * players, observations, agents and whole states, each with a constructor
 * from the kaggle-environment shape and a conversion back to it. Python dicts
 * compare without regard to order, so they are maps here; positions are the
 * flat board indices the environment uses.
 */
module StateNew {
  import opened Wrappers

  // ---------------------------------------------------------------------------
  // The kaggle-environment shapes.

  /** A player entry: [halite, {uid: pos}, {uid: [pos, cargo]}]. */
  datatype KagglePlayer = KagglePlayer(halite: real, shipyards: map<string, int>, ships: map<string, (int, Option<real>)>)

  /** An observation Struct: the index of the observing player, the step, the board and the players. */
  datatype KaggleObservation = KaggleObservation(player: int, step: int, halite: seq<real>, players: seq<KagglePlayer>)

  /** An agent Struct of the environment state list. */
  datatype KaggleAgent = KaggleAgent(action: map<string, string>, reward: real, info: map<string, string>,
                                     status: string, observation: KaggleObservation)

  // ---------------------------------------------------------------------------
  // The records.

  datatype Shipyard = Shipyard(uid: string, pos: int)

  datatype Ship = Ship(uid: string, pos: int, halite: Option<real>)

  datatype Player = Player(halite: real, shipyards: map<string, Shipyard>, ships: map<string, Ship>)

  datatype Observation = Observation(step: int, halite: seq<real>, players: seq<Player>)

  datatype Agent = Agent(action: map<string, string>, reward: real, info: map<string, string>, status: string)

  datatype State = State(agents: seq<Agent>, observation: Observation)

  // ---------------------------------------------------------------------------
  // Player

  /** Player.from_kaggle_env_observation: one record per dict entry, carrying its key as uid. */
  function PlayerFrom(p: KagglePlayer): (r: Player)
    ensures r.halite == p.halite && r.shipyards.Keys == p.shipyards.Keys && r.ships.Keys == p.ships.Keys
    ensures forall uid :: uid in p.shipyards ==> r.shipyards[uid] == Shipyard(uid, p.shipyards[uid])
    ensures forall uid :: uid in p.ships ==> r.ships[uid] == Ship(uid, p.ships[uid].0, p.ships[uid].1)
  {
    Player(p.halite,
           map uid | uid in p.shipyards :: Shipyard(uid, p.shipyards[uid]),
           map uid | uid in p.ships :: Ship(uid, p.ships[uid].0, p.ships[uid].1))
  }

  /** Player.to_kaggle_env_observation: the balance, the shipyard positions, and each ship's [pos, halite]. */
  function PlayerTo(p: Player): (r: KagglePlayer)
    ensures r.halite == p.halite && r.shipyards.Keys == p.shipyards.Keys && r.ships.Keys == p.ships.Keys
    ensures forall uid :: uid in p.shipyards ==> r.shipyards[uid] == p.shipyards[uid].pos
    ensures forall uid :: uid in p.ships ==> r.ships[uid] == (p.ships[uid].pos, p.ships[uid].halite)
  {
    KagglePlayer(p.halite,
                 map uid | uid in p.shipyards :: p.shipyards[uid].pos,
                 map uid | uid in p.ships :: (p.ships[uid].pos, p.ships[uid].halite))
  }

  /** Every dict key is the uid of the unit it maps to. */
  predicate KeyedByUid(p: Player)
  {
    (forall uid :: uid in p.shipyards ==> p.shipyards[uid].uid == uid) &&
    (forall uid :: uid in p.ships ==> p.ships[uid].uid == uid)
  }

  /** Reading a player entry and writing it back gives the entry. */
  lemma PlayerRoundTrip(p: KagglePlayer)
    ensures PlayerTo(PlayerFrom(p)) == p
  {
    var q := PlayerTo(PlayerFrom(p));
    assert q.shipyards == p.shipyards;
    assert q.ships == p.ships;
  }

  /** Writing a player and reading it back gives the player, exactly when its dicts are keyed by uid. */
  lemma PlayerRoundTripBack(p: Player)
    ensures PlayerFrom(PlayerTo(p)) == p <==> KeyedByUid(p)
  {
    var q := PlayerFrom(PlayerTo(p));
    if KeyedByUid(p) {
      assert q.shipyards == p.shipyards;
      assert q.ships == p.ships;
    }
    if q == p {
      forall uid | uid in p.shipyards ensures p.shipyards[uid].uid == uid {
        assert q.shipyards[uid].uid == uid;
      }
      forall uid | uid in p.ships ensures p.ships[uid].uid == uid {
        assert q.ships[uid].uid == uid;
      }
    }
  }

  // ---------------------------------------------------------------------------
  // Observation

  /** Observation.from_kaggle_env_observation: the step, the board and every player; the observer index is dropped. */
  function ObservationFrom(o: KaggleObservation): (r: Observation)
    ensures r.step == o.step && r.halite == o.halite && |r.players| == |o.players|
    ensures forall i :: 0 <= i < |o.players| ==> r.players[i] == PlayerFrom(o.players[i])
  {
    Observation(o.step, o.halite, seq(|o.players|, i requires 0 <= i < |o.players| => PlayerFrom(o.players[i])))
  }

  /** Observation.to_kaggle_env_observation: the same fields for the given observer. */
  function ObservationTo(o: Observation, player: int): (r: KaggleObservation)
    ensures r.player == player && r.step == o.step && r.halite == o.halite && |r.players| == |o.players|
    ensures forall i :: 0 <= i < |o.players| ==> r.players[i] == PlayerTo(o.players[i])
  {
    KaggleObservation(player, o.step, o.halite, seq(|o.players|, i requires 0 <= i < |o.players| => PlayerTo(o.players[i])))
  }

  /** An observation read and written back for its own observer is the observation. */
  lemma ObservationRoundTrip(o: KaggleObservation)
    ensures ObservationTo(ObservationFrom(o), o.player) == o
  {
    var q := ObservationTo(ObservationFrom(o), o.player);
    forall i | 0 <= i < |o.players| ensures q.players[i] == o.players[i] {
      PlayerRoundTrip(o.players[i]);
    }
    assert q.players == o.players;
  }

  /** An observation written for any observer and read back is the observation, when every player is keyed by uid. */
  lemma ObservationRoundTripBack(o: Observation, player: int)
    requires forall i :: 0 <= i < |o.players| ==> KeyedByUid(o.players[i])
    ensures ObservationFrom(ObservationTo(o, player)) == o
  {
    var q := ObservationFrom(ObservationTo(o, player));
    forall i | 0 <= i < |o.players| ensures q.players[i] == o.players[i] {
      PlayerRoundTripBack(o.players[i]);
    }
    assert q.players == o.players;
  }

  // ---------------------------------------------------------------------------
  // Agent

  /** Agent.from_kaggle_env_agent: action, reward, info and status; the observation is not kept. */
  function AgentFrom(a: KaggleAgent): (r: Agent)
    ensures r.action == a.action && r.reward == a.reward && r.info == a.info && r.status == a.status
  {
    Agent(a.action, a.reward, a.info, a.status)
  }

  /** Agent.to_kaggle_env_agent: the agent's fields with the given observation. */
  function AgentTo(a: Agent, observation: KaggleObservation): (r: KaggleAgent)
    ensures r.action == a.action && r.reward == a.reward && r.info == a.info && r.status == a.status
    ensures r.observation == observation
  {
    KaggleAgent(a.action, a.reward, a.info, a.status, observation)
  }

  /** An agent written and read back is the agent, whatever observation it was written with. */
  lemma AgentRoundTrip(a: Agent, observation: KaggleObservation)
    ensures AgentFrom(AgentTo(a, observation)) == a
  {
  }

  /** An agent read and written back with its own observation is the agent. */
  lemma AgentRoundTripBack(a: KaggleAgent)
    ensures AgentTo(AgentFrom(a), a.observation) == a
  {
  }

  // ---------------------------------------------------------------------------
  // State

  /** State.from_kaggle_env_state: every agent, and the observation of the first; IndexError on an empty list. */
  function StateFrom(agents: seq<KaggleAgent>): (r: Result<State, string>)
    ensures r.Failure? <==> agents == []
    ensures r.Success? ==> |r.value.agents| == |agents| && r.value.observation == ObservationFrom(agents[0].observation)
    ensures r.Success? ==> forall i :: 0 <= i < |agents| ==> r.value.agents[i] == AgentFrom(agents[i])
  {
    if agents == [] then Failure("IndexError")
    else Success(State(seq(|agents|, i requires 0 <= i < |agents| => AgentFrom(agents[i])), ObservationFrom(agents[0].observation)))
  }

  /** State.to_kaggle_env_state: agent i with the shared observation as seen by player i. */
  function StateTo(s: State): (r: seq<KaggleAgent>)
    ensures |r| == |s.agents|
    ensures forall i :: 0 <= i < |r| ==> r[i] == AgentTo(s.agents[i], ObservationTo(s.observation, i))
  {
    seq(|s.agents|, i requires 0 <= i < |s.agents| => AgentTo(s.agents[i], ObservationTo(s.observation, i)))
  }

  /** Entry i of the written state names player i as the observer and carries agent i's own fields. */
  lemma StateToEntries(s: State, i: nat)
    requires i < |s.agents|
    ensures var e := StateTo(s)[i];
            e.observation.player == i && e.observation.step == s.observation.step &&
            e.observation.halite == s.observation.halite &&
            e.action == s.agents[i].action && e.reward == s.agents[i].reward &&
            e.info == s.agents[i].info && e.status == s.agents[i].status
  {
  }

  /** A state with at least one agent, written and read back, is the state when every player is keyed by uid. */
  lemma StateRoundTrip(s: State)
    requires s.agents != []
    requires forall i :: 0 <= i < |s.observation.players| ==> KeyedByUid(s.observation.players[i])
    ensures StateFrom(StateTo(s)) == Success(s)
  {
    var r := StateFrom(StateTo(s)).value;
    ObservationRoundTripBack(s.observation, 0);
    assert r.agents == s.agents;
  }
}
