/**
 The retry table as the bus holds it while it runs: consumers add rows, and repeaters, operators and
 other consumers write to it in between. The run so far is its history.
 */
module RetryStore {
  import opened Wrappers
  import opened Backoff
  import opened RetryRecords
  import opened RetryTable

  class Retries {
    const config: Config
    const workers: nat
    var state: State
    ghost var run: seq<State>
    ghost var actions: seq<Action>

    ghost predicate Valid()
      reads this
    {
      IsRun(config, run, actions, workers) && state == run[|actions|]
    }

    constructor (config: Config, workers: nat)
      ensures Valid() && this.config == config && actions == []
    {
      this.config, this.workers, state := config, workers, Start(workers);
      run, actions := [Start(workers)], [];
    }

    method Take(a: Action)
      requires Valid() && Enabled(config, state, a)
      modifies this
      ensures Valid() && state == Next(config, old(state), a)
      ensures actions == old(actions) + [a] && run == old(run) + [state]
    {
      state := Next(config, state, a);
      run, actions := run + [state], actions + [a];
    }

    /** Whatever else happens to the table. */
    method Others()
      requires Valid()
      modifies this
      ensures Valid() && old(actions) <= actions && old(run) <= run
    {
      var steps: int := *;
      while steps > 0
        invariant Valid() && old(actions) <= actions && old(run) <= run
      {
        var a: Action := *;
        if Enabled(config, state, a) {
          Take(a);
        }
        steps := steps - 1;
      }
    }

    /** Stores a first failed delivery, or fails and stores nothing. */
    method Add(data: RepeatData, error: Text, retryLater: bool, retryAfter: int) returns (ok: bool)
      requires Valid()
      modifies this
      ensures Valid() && old(actions) <= actions && old(run) <= run
      ensures ok ==> exists id: int, now: int ::
                actions == old(actions) + [Insert(FirstRow(id, data, error, retryLater, retryAfter, config.standard, now), now)]
      ensures !ok ==> actions == old(actions)
    {
      ok := *;
      if ok {
        var now: int := *;
        Take(Insert(FirstRow(state.nextId, data, error, retryLater, retryAfter, config.standard, now), now));
      }
    }
  }
}
