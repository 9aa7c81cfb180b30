/**
 The text environment (`crates/rollout-harness-text/src/lib.rs`) and its episode store
 (`episode.rs`): batched steps, each episode with its own turn counter and seeded generator.
 */
module Episodes {
  import opened SplitMix
  import opened Wrappers

  type EpisodeId = nat

  /** `rng` is the generator's state. */
  datatype Episode = Episode(prompt: string, turn: nat, maxTurns: nat, rng: Word)

  type Store = map<EpisodeId, Episode>

  /** `turn += 1` on 32 bits. */
  function NextTurn(turn: nat): nat {
    (turn + 1) % 0x1_0000_0000
  }

  function Advance(e: Episode): Episode {
    e.(turn := NextTurn(e.turn), rng := AfterDraw(e.rng))
  }

  /** What an episode's own step shows: turn, done flag and, through its output, the generator's
      state; nothing for an unknown id. */
  datatype Shown = Shown(turn: nat, done: bool, rng: Word)

  function Show(e: Episode): Shown {
    var after := Advance(e);
    Shown(after.turn, after.turn >= after.maxTurns, after.rng)
  }

  // ---------- Operations as events ----------

  datatype Event =
    | Open(id: EpisodeId, prompt: string, maxTurns: nat, seed: Word)
    | Step(id: EpisodeId)
    | Close(id: EpisodeId)

  function Apply(store: Store, e: Event): Store {
    match e
    case Open(id, prompt, maxTurns, seed) => store[id := Episode(prompt, 0, maxTurns, seed)]
    case Step(id) => if id in store then store[id := Advance(store[id])] else store
    case Close(id) => store - {id}
  }

  function Run(store: Store, events: seq<Event>): Store
    decreases |events|
  {
    if events == [] then store else Run(Apply(store, events[0]), events[1..])
  }

  /** What the steps of one episode show, in order. */
  function Trajectory(store: Store, events: seq<Event>, id: EpisodeId): seq<Option<Shown>>
    decreases |events|
  {
    if events == [] then []
    else
      (if events[0] == Step(id) then [if id in store then Some(Show(store[id])) else None] else [])
      + Trajectory(Apply(store, events[0]), events[1..], id)
  }

  /** The events of one episode. */
  function Only(events: seq<Event>, id: EpisodeId): seq<Event> {
    if events == [] then []
    else (if events[0].id == id then [events[0]] else []) + Only(events[1..], id)
  }

  predicate SameEpisode(a: Store, b: Store, id: EpisodeId) {
    (id in a <==> id in b) && (id in a ==> a[id] == b[id])
  }

  /** Isolation: nothing that happens to other episodes shows, in state or in results. */
  lemma {:induction false} OthersDoNotMatter(a: Store, b: Store, events: seq<Event>, id: EpisodeId)
    requires SameEpisode(a, b, id)
    ensures SameEpisode(Run(a, events), Run(b, Only(events, id)), id)
    ensures Trajectory(a, events, id) == Trajectory(b, Only(events, id), id)
    decreases |events|
  {
    if events != [] {
      var e, rest := events[0], events[1..];
      if e.id == id {
        assert Only(events, id)[0] == e && Only(events, id)[1..] == Only(rest, id);
        OthersDoNotMatter(Apply(a, e), Apply(b, e), rest, id);
      } else {
        assert Only(events, id) == Only(rest, id);
        OthersDoNotMatter(Apply(a, e), b, rest, id);
      }
    }
  }

  /** Two interleavings with the same events of an episode show the same trajectory. */
  lemma InterleavingDoesNotMatter(store: Store, some: seq<Event>, other: seq<Event>, id: EpisodeId)
    requires Only(some, id) == Only(other, id)
    ensures Trajectory(store, some, id) == Trajectory(store, other, id)
  {
    OthersDoNotMatter(store, store, some, id);
    OthersDoNotMatter(store, store, other, id);
  }

  // ---------- The closed form ----------

  /** The `k`th step, from one, of an episode: a function of seed, budget and `k` alone. */
  function Expected(seed: Word, maxTurns: nat, k: nat): Shown {
    var turn := k % 0x1_0000_0000;
    Shown(turn, turn >= maxTurns, Drawn(seed, k))
  }

  predicate IsAfter(e: Episode, seed: Word, maxTurns: nat, k: nat) {
    e.turn == k % 0x1_0000_0000 && e.maxTurns == maxTurns && e.rng == Drawn(seed, k)
  }

  lemma StepShows(e: Episode, seed: Word, maxTurns: nat, k: nat)
    requires IsAfter(e, seed, maxTurns, k)
    ensures Show(e) == Expected(seed, maxTurns, k + 1) && IsAfter(Advance(e), seed, maxTurns, k + 1)
  {
    assert Drawn(seed, k + 1) == AfterDraw(Drawn(seed, k));
  }

  predicate NotReopened(events: seq<Event>, id: EpisodeId) {
    forall i :: 0 <= i < |events| ==> !(events[i].Open? && events[i].id == id)
  }

  /** The steps an episode gets before it is closed. */
  function LiveSteps(events: seq<Event>, id: EpisodeId): nat
    decreases |events|
  {
    if events == [] || events[0] == Close(id) then 0
    else (if events[0] == Step(id) then 1 else 0) + LiveSteps(events[1..], id)
  }

  /**
   Whatever else the environment does, the `j`th step of an episode shows the `j`th turn, done
   flag and nonce of its seed while the episode lives, and an error entry once it is closed.
   */
  lemma {:induction false} TrajectoryIsDetermined(store: Store, events: seq<Event>, id: EpisodeId,
                                                 seed: Word, maxTurns: nat, k: nat, j: nat)
    requires id in store && IsAfter(store[id], seed, maxTurns, k) && NotReopened(events, id)
    requires j < |Trajectory(store, events, id)|
    ensures Trajectory(store, events, id)[j] ==
      if j < LiveSteps(events, id) then Some(Expected(seed, maxTurns, k + j + 1)) else None
    decreases |events|
  {
    var e, rest := events[0], events[1..];
    assert forall i :: 0 <= i < |rest| ==> rest[i] == events[i + 1];
    var next := Apply(store, e);
    if e == Step(id) {
      StepShows(store[id], seed, maxTurns, k);
      if j > 0 {
        TrajectoryIsDetermined(next, rest, id, seed, maxTurns, k + 1, j - 1);
      }
    } else if e == Close(id) {
      ClosedShowsErrors(next, rest, id, j);
    } else {
      assert !(e.Open? && e.id == id);
      TrajectoryIsDetermined(next, rest, id, seed, maxTurns, k, j);
    }
  }

  lemma {:induction false} ClosedShowsErrors(store: Store, events: seq<Event>, id: EpisodeId, j: nat)
    requires id !in store && NotReopened(events, id) && j < |Trajectory(store, events, id)|
    ensures Trajectory(store, events, id)[j] == None
    decreases |events|
  {
    var e, rest := events[0], events[1..];
    assert forall i :: 0 <= i < |rest| ==> rest[i] == events[i + 1];
    assert !(e.Open? && e.id == id);
    if e == Step(id) {
      if j > 0 {
        ClosedShowsErrors(Apply(store, e), rest, id, j - 1);
      }
    } else {
      ClosedShowsErrors(Apply(store, e), rest, id, j);
    }
  }

  /** No two of an episode's first 2^64 steps carry the same nonce. */
  lemma EpisodeNoncesDoNotRepeat(store: Store, events: seq<Event>, id: EpisodeId, seed: Word, maxTurns: nat, j: nat, l: nat)
    requires id in store && IsAfter(store[id], seed, maxTurns, 0) && NotReopened(events, id) && seed < WORDS
    requires j < l < j + WORDS && l < |Trajectory(store, events, id)| && l < LiveSteps(events, id)
    ensures var t := Trajectory(store, events, id);
      t[j].Some? && t[l].Some? && Mix(t[j].value.rng) != Mix(t[l].value.rng)
  {
    TrajectoryIsDetermined(store, events, id, seed, maxTurns, 0, j);
    TrajectoryIsDetermined(store, events, id, seed, maxTurns, 0, l);
    OutputsDoNotRepeat(seed, j + 1, l + 1);
  }

  /** Done stays done, except where the 32-bit turn counter wraps. */
  lemma DoneIsStickyExactly(seed: Word, maxTurns: nat, k: nat)
    requires Expected(seed, maxTurns, k).done
    ensures Expected(seed, maxTurns, k + 1).done <==> (k + 1) % 0x1_0000_0000 != 0 || maxTurns == 0
  {
  }

  /** The counter wraps: with a budget of one, a step past 2^32 turns is not done again. */
  lemma DoneEndsAtTheWrap(seed: Word)
    ensures Expected(seed, 1, 0xFFFF_FFFF).done && !Expected(seed, 1, 0x1_0000_0000).done
  {
  }

  // ---------- The environment ----------

  type Reward = real

  /** What the reward plugin answers in one batch: by entry, prompt and completion; it may fail. */
  type Oracle = (nat, string, string) -> Option<Reward>

  /** Where rewards come from: a plugin, or without one the canned reward, if any. */
  datatype Rewards = Plugin(oracle: Oracle) | Canned(reward: Option<Reward>)

  /** `None` is the plugin's failure. */
  function Rewarded(rewards: Rewards, n: nat, prompt: string, completion: string): Option<Option<Reward>> {
    match rewards
    case Canned(reward) => Some(reward)
    case Plugin(oracle) =>
      match oracle(n, prompt, completion)
      case None => None
      case Some(reward) => Some(Some(reward))
  }

  datatype Prompted = Prompted(id: EpisodeId, observation: string)

  datatype EpisodeStep = EpisodeStep(id: EpisodeId, action: string)

  /** `info` is `None` for the error entry of an unknown or closed episode. */
  datatype StepResult = StepResult(id: EpisodeId, observation: string, reward: Option<Reward>, done: bool,
                                   info: Option<(nat, Word)>)

  /** A result says what the store of that moment shows of its episode. */
  predicate Answers(store: Store, rewards: Rewards, n: nat, step: EpisodeStep, r: StepResult) {
    r.id == step.id &&
    if step.id in store then
      var shown := Show(store[step.id]);
      && r.observation == step.action && r.done == shown.done && r.info == Some((shown.turn, Mix(shown.rng)))
      && Rewarded(rewards, n, store[step.id].prompt, step.action) == Some(r.reward)
    else
      r == StepResult(step.id, "", None, true, None)
  }

  /** The entry's episode is live and its reward fails. */
  predicate Fails(store: Store, rewards: Rewards, n: nat, step: EpisodeStep) {
    step.id in store && Rewarded(rewards, n, store[step.id].prompt, step.action).None?
  }

  /** The store that entry `n` of a batch finds. */
  function Found(store: Store, batch: seq<EpisodeStep>, n: nat): Store
    requires n <= |batch|
  {
    Run(store, StepEvents(batch[..n]))
  }

  predicate FailsAt(store: Store, rewards: Rewards, batch: seq<EpisodeStep>, n: nat)
    requires n < |batch|
  {
    Fails(Found(store, batch, n), rewards, n, batch[n])
  }

  /** The results so far answer the batch in order, each on the store its turn found. */
  predicate AnswersAll(store: Store, rewards: Rewards, batch: seq<EpisodeStep>, results: seq<StepResult>) {
    |results| <= |batch| &&
    forall i :: 0 <= i < |results| ==> Answers(Found(store, batch, i), rewards, i, batch[i], results[i])
  }

  lemma AnswersOneMore(store: Store, rewards: Rewards, batch: seq<EpisodeStep>, results: seq<StepResult>, r: StepResult)
    requires |results| < |batch|
    ensures
      AnswersAll(store, rewards, batch, results) && Answers(Found(store, batch, |results|), rewards, |results|, batch[|results|], r)
      ==> AnswersAll(store, rewards, batch, results + [r])
  {
    var more := results + [r];
    assert forall i :: 0 <= i < |results| ==> more[i] == results[i];
  }

  lemma FoundNext(store: Store, batch: seq<EpisodeStep>, n: nat)
    requires n < |batch|
    ensures Found(store, batch, n + 1) == Apply(Found(store, batch, n), Step(batch[n].id))
  {
    assert batch[..n + 1][..n] == batch[..n];
    RunSnoc(store, StepEvents(batch[..n]), Step(batch[n].id));
  }

  function StepEvents(batch: seq<EpisodeStep>): seq<Event> {
    if batch == [] then [] else StepEvents(batch[..|batch| - 1]) + [Step(batch[|batch| - 1].id)]
  }

  function CloseEvents(ids: seq<EpisodeId>): seq<Event> {
    if ids == [] then [] else CloseEvents(ids[..|ids| - 1]) + [Close(ids[|ids| - 1])]
  }

  lemma {:induction false} RunSnoc(store: Store, events: seq<Event>, e: Event)
    ensures Run(store, events + [e]) == Apply(Run(store, events), e)
    decreases |events|
  {
    if events == [] {
      assert events + [e] == [e];
      assert Run(Apply(store, e), []) == Apply(store, e);
    } else {
      assert (events + [e])[0] == events[0] && (events + [e])[1..] == events[1..] + [e];
      RunSnoc(Apply(store, events[0]), events[1..], e);
    }
  }

  class TextCompletionEnv {
    const seed: Option<Word>
    const maxTurns: nat
    const rewards: Rewards
    var store: Store

    constructor (seed: Option<Word>, maxTurns: nat, rewards: Rewards)
      ensures store == map[] && this.seed == seed && this.maxTurns == maxTurns && this.rewards == rewards
    {
      this.seed, this.maxTurns, this.rewards := seed, maxTurns, rewards;
      store := map[];
    }

    /** Seed xor index. */
    function EpisodeSeed(idx: nat): Word {
      Xor(match seed case Some(s) => s case None => 0, idx % WORDS)
    }

    /** Seeds differ from place to place; the first is the environment's, and without one each is its place. */
    lemma SeedsDiffer(i: nat, j: nat)
      requires i < j < WORDS
      ensures EpisodeSeed(i) != EpisodeSeed(j)
      ensures seed.None? ==> EpisodeSeed(i) == i
      ensures EpisodeSeed(0) == if seed.Some? then seed.value else 0
    {
      XorInjective(if seed.Some? then seed.value else 0, i, j);
      assert i % WORDS == i && j % WORDS == j && 0 % WORDS == 0;
    }

    /** One fresh episode for each prompt, with a seed of its own that its place in the batch decides. */
    method Reset(prompts: seq<string>, ids: seq<EpisodeId>) returns (out: seq<Prompted>)
      requires |ids| == |prompts| && forall i :: 0 <= i < |ids| ==> ids[i] !in store
      requires forall i, j :: 0 <= i < j < |ids| ==> ids[i] != ids[j]
      modifies this
      ensures |out| == |prompts|
      ensures forall i :: 0 <= i < |prompts| ==>
        && out[i] == Prompted(ids[i], prompts[i])
        && ids[i] in store && store[ids[i]] == Episode(prompts[i], 0, maxTurns, EpisodeSeed(i))
      ensures forall i, j :: 0 <= i < j < |ids| <= WORDS ==> store[ids[i]].rng != store[ids[j]].rng
      ensures forall id :: id !in ids ==> SameEpisode(store, old(store), id)
    {
      out := [];
      for idx := 0 to |prompts|
        invariant |out| == idx
        invariant forall i :: 0 <= i < idx ==>
          && out[i] == Prompted(ids[i], prompts[i])
          && ids[i] in store && store[ids[i]] == Episode(prompts[i], 0, maxTurns, EpisodeSeed(i))
        invariant forall id :: id !in ids ==> SameEpisode(store, old(store), id)
      {
        var id := ids[idx];
        assert id in ids;
        store := store[id := Episode(prompts[idx], 0, maxTurns, EpisodeSeed(idx))];
        out := out + [Prompted(id, prompts[idx])];
      }
      forall i, j | 0 <= i < j < |ids| <= WORDS ensures store[ids[i]].rng != store[ids[j]].rng {
        SeedsDiffer(i, j);
      }
    }

    /** One entry: the episode advances under the lock before the reward is asked for. */
    method StepOne(step: EpisodeStep, n: nat) returns (r: Option<StepResult>)
      modifies this
      ensures store == Apply(old(store), Step(step.id))
      ensures r.None? <==> Fails(old(store), rewards, n, step)
      ensures r.Some? ==> Answers(old(store), rewards, n, step, r.value)
      ensures step.id !in old(store) ==>
        store == old(store) && r == Some(StepResult(step.id, "", None, true, None))
      ensures step.id in old(store) ==>
        var before, after := old(store)[step.id], store[step.id];
        && store == old(store)[step.id := after]
        && after.turn == (before.turn + 1) % 0x1_0000_0000
        && after.prompt == before.prompt && after.maxTurns == before.maxTurns
        && (match rewards
            case Canned(reward) => r.Some? && r.value.reward == reward
            case Plugin(oracle) =>
              var answer := oracle(n, before.prompt, step.action);
              (r.None? <==> answer.None?) && (r.Some? ==> r.value.reward == answer))
        && (r.Some? ==>
              && r.value.id == step.id && r.value.observation == step.action
              && (r.value.done <==> after.turn >= after.maxTurns)
              && r.value.info == Some((after.turn, Mix(after.rng))))
    {
      var EpisodeStep(id, action) := step;
      if id !in store {
        return Some(StepResult(id, "", None, true, None));
      }
      var rng := new SplitMix64(store[id].rng);
      var nonce := rng.NextU64();
      var turn := NextTurn(store[id].turn);
      store := store[id := store[id].(turn := turn, rng := rng.state)];
      var reward := Rewarded(rewards, n, store[id].prompt, action);
      if reward.None? {
        return None;
      }
      r := Some(StepResult(id, action, reward.value, turn >= store[id].maxTurns, Some((turn, nonce))));
    }

    /**
     Every entry of the batch advances its own episode once, in order, and its result shows
     just that.  The results are lost exactly when the reward of some entry with a live episode
     fails; then the episodes up to and including the first such entry have advanced.
     */
    method StepBatch(batch: seq<EpisodeStep>) returns (out: Option<seq<StepResult>>, ghost dealt: nat)
      modifies this
      ensures dealt <= |batch| && store == Found(old(store), batch, dealt)
      ensures out.None? <==> exists n :: 0 <= n < |batch| && FailsAt(old(store), rewards, batch, n)
      ensures out.None? ==>
        && dealt > 0 && FailsAt(old(store), rewards, batch, dealt - 1)
        && forall n :: 0 <= n < dealt - 1 ==> !FailsAt(old(store), rewards, batch, n)
      ensures out.Some? ==> dealt == |batch| == |out.value| && AnswersAll(old(store), rewards, batch, out.value)
    {
      var results: seq<StepResult> := [];
      ghost var before := store;
      assert batch[..0] == [];
      for n := 0 to |batch|
        invariant store == Found(before, batch, n) && |results| == n
        invariant AnswersAll(before, rewards, batch, results)
        invariant forall i :: 0 <= i < n ==> !FailsAt(before, rewards, batch, i)
      {
        FoundNext(before, batch, n);
        var r := StepOne(batch[n], n);
        if r.None? {
          assert FailsAt(before, rewards, batch, n);
          return None, n + 1;
        }
        AnswersOneMore(before, rewards, batch, results, r.value);
        results := results + [r.value];
      }
      return Some(results), |batch|;
    }

    method CloseAll(ids: seq<EpisodeId>)
      modifies this
      ensures store == Run(old(store), CloseEvents(ids))
      ensures forall id :: id in ids ==> id !in store
      ensures forall id :: id !in ids ==> SameEpisode(store, old(store), id)
    {
      for n := 0 to |ids|
        invariant store == Run(old(store), CloseEvents(ids[..n]))
        invariant forall id :: id in ids[..n] ==> id !in store
        invariant forall id :: id !in ids[..n] ==> SameEpisode(store, old(store), id)
      {
        assert ids[..n + 1] == ids[..n] + [ids[n]];
        assert ids[..n + 1][..n] == ids[..n];
        RunSnoc(old(store), CloseEvents(ids[..n]), Close(ids[n]));
        store := store - {ids[n]};
      }
      assert ids[..|ids|] == ids;
    }
  }

  /** A batch in which one episode's failing reward loses the result of another, which has advanced. */
  method LosesAnothersResult() returns (env: TextCompletionEnv, out: Option<seq<StepResult>>)
    ensures fresh(env) && out == None
    ensures 0 in env.store && env.store[0].turn == 1
  {
    var oracle: Oracle := (n: nat, prompt: string, completion: string) => if n == 0 then Some(1.0) else None;
    env := new TextCompletionEnv(None, 5, Plugin(oracle));
    var ids := [0, 1];
    var prompted := env.Reset(["a", "b"], ids);
    assert 0 == ids[0] && 1 == ids[1];
    var batch := [EpisodeStep(0, "x"), EpisodeStep(1, "y")];
    ghost var store := env.store;
    ghost var dealt;
    out, dealt := env.StepBatch(batch);
    assert Found(store, batch, 0) == store by {
      assert batch[..0] == [];
    }
    FoundNext(store, batch, 0);
    FoundNext(store, batch, 1);
    assert !FailsAt(store, env.rewards, batch, 0) && FailsAt(store, env.rewards, batch, 1);
  }
}
