/**
 * The game-setup reducer (state/GameSetupContext.tsx): a pure function from
 * the current setup and a dispatched action to the next setup. The provider's
 * storage effects are not part of this module.
 */
module GameSetupState {
  import opened Wrappers
  import opened NavigationTypes

  /** The closed union of actions the reducer accepts. */
  datatype Action =
    | SetTopic(topic: TopicKey)
    | SetDifficulty(difficulty: Difficulty)
    | SetCount(count: int)
    | Reset
    | Hydrate(value: GameSetup)

  /** The state the reducer starts from. */
  function InitialState(): (s: GameSetup)
    ensures s.topic.None? && s.difficulty.None? && s.count.None?
  {
    EmptySetup
  }

  /** `{ ...a, ...b }` on two setups: a field present in `b` wins. */
  function Merge(a: GameSetup, b: GameSetup): GameSetup
  {
    GameSetup(
      if b.topic.Some? then b.topic else a.topic,
      if b.difficulty.Some? then b.difficulty else a.difficulty,
      if b.count.Some? then b.count else a.count)
  }

  /** One step of the reducer. Each setter touches only its own field. */
  function Reduce(state: GameSetup, action: Action): (r: GameSetup)
    ensures action.SetTopic? ==>
      r.topic == Some(action.topic) && r.difficulty == state.difficulty && r.count == state.count
    ensures action.SetDifficulty? ==>
      r.difficulty == Some(action.difficulty) && r.topic == state.topic && r.count == state.count
    ensures action.SetCount? ==>
      r.count == Some(action.count) && r.topic == state.topic && r.difficulty == state.difficulty
    ensures action.Reset? ==> r == InitialState()
  {
    match action
    case SetTopic(t) => state.(topic := Some(t))
    case SetDifficulty(d) => state.(difficulty := Some(d))
    case SetCount(n) => state.(count := Some(n))
    case Reset => EmptySetup
    case Hydrate(v) => Merge(state, v)
  }

  /** Hydrating: every field present in `v` takes `v`'s value, every absent one keeps the current one. */
  lemma HydrateFields(state: GameSetup, v: GameSetup)
    ensures var r := Reduce(state, Hydrate(v));
      && (v.topic.Some? ==> r.topic == v.topic)
      && (v.topic.None? ==> r.topic == state.topic)
      && (v.difficulty.Some? ==> r.difficulty == v.difficulty)
      && (v.difficulty.None? ==> r.difficulty == state.difficulty)
      && (v.count.Some? ==> r.count == v.count)
      && (v.count.None? ==> r.count == state.count)
  {
  }

  /** Hydrating with the empty value changes nothing. */
  lemma HydrateEmptyIsIdentity(state: GameSetup)
    ensures Reduce(state, Hydrate(EmptySetup)) == state
  {
  }

  /** Reset gives the empty setup from any state, and a second reset changes nothing. */
  lemma ResetIdempotent(state: GameSetup)
    ensures Reduce(state, Reset) == InitialState()
    ensures Reduce(Reduce(state, Reset), Reset) == Reduce(state, Reset)
  {
  }

  /** The same kind of setter twice is the same as once with the last value. */
  lemma LastWriteWins(state: GameSetup, a: Action, b: Action)
    requires (a.SetTopic? && b.SetTopic?) || (a.SetDifficulty? && b.SetDifficulty?)
          || (a.SetCount? && b.SetCount?)
    ensures Reduce(Reduce(state, a), b) == Reduce(state, b)
  {
  }

  /** Setters of different fields commute, so choosing the topic and then the difficulty keeps the topic. */
  lemma SettersCommute(state: GameSetup, a: Action, b: Action)
    requires a.SetTopic? || a.SetDifficulty? || a.SetCount?
    requires b.SetTopic? || b.SetDifficulty? || b.SetCount?
    requires a.SetTopic? ==> !b.SetTopic?
    requires a.SetDifficulty? ==> !b.SetDifficulty?
    requires a.SetCount? ==> !b.SetCount?
    ensures Reduce(Reduce(state, a), b) == Reduce(Reduce(state, b), a)
  {
  }

  /** The state after dispatching `actions` in order, as `useReducer` does. */
  function Replay(state: GameSetup, actions: seq<Action>): GameSetup
    decreases |actions|
  {
    if actions == [] then state
    else Replay(Reduce(state, actions[0]), actions[1..])
  }

  /** Replaying a concatenation is replaying the second part from where the first ended. */
  lemma {:induction false} ReplayAppend(state: GameSetup, xs: seq<Action>, ys: seq<Action>)
    ensures Replay(state, xs + ys) == Replay(Replay(state, xs), ys)
    decreases |xs|
  {
    if xs == [] {
      assert xs + ys == ys;
    } else {
      assert (xs + ys)[1..] == xs[1..] + ys;
      ReplayAppend(Reduce(state, xs[0]), xs[1..], ys);
    }
  }

  /** A reset forgets the whole history before it: what follows starts from the initial state. */
  lemma ReplayAfterReset(state: GameSetup, before: seq<Action>, after: seq<Action>)
    ensures Replay(state, before + [Reset] + after) == Replay(InitialState(), after)
  {
    ReplayAppend(state, before + [Reset], after);
    ReplayAppend(state, before, [Reset]);
  }

  /** Actions that never name the topic leave it as it was. */
  lemma {:induction false} ReplayKeepsTopic(state: GameSetup, actions: seq<Action>)
    requires forall i :: 0 <= i < |actions| ==>
      !actions[i].SetTopic? && !actions[i].Reset? && !(actions[i].Hydrate? && actions[i].value.topic.Some?)
    ensures Replay(state, actions).topic == state.topic
    decreases |actions|
  {
    if actions != [] {
      ReplayKeepsTopic(Reduce(state, actions[0]), actions[1..]);
    }
  }
}
