/** The bus retries a command handler that ends in a conflict. Here the handler is one
    `Execute` on an event store. */
module CommandRetry {
  import opened EventLog
  import opened EventStore

  /** `NewBus` reads a retry count of 0 as 5; other values are kept as given. */
  function ConflictRetries(option: int): int {
    if option == 0 then 5 else option
  }

  /** The handler's error matches `ErrConflict`. */
  predicate IsConflict(r: ExecuteResult) {
    r.Exhausted? || (r.MutateFailed? && r.conflict)
  }

  predicate NoError(r: ExecuteResult) {
    r.Wrote? || r.NothingToSave?
  }

  /** What the retrying handler returns: the error of the last handler call, or none. */
  datatype Outcome = NoCommandError | CommandError(cause: ExecuteResult)

  /** `withCommandConflictRetry` around a handler that is one `Execute`. However often it is
      retried, at most one batch lands, within `retries * MaxAttempts` saves, and any error but
      that of a publish without a reply means that nothing landed. With a retry count of 0 or
      more, success means that a batch landed or that `mutate` had nothing to save, and an error
      is that of an `Execute` with its cause. A negative count never calls the handler, leaves
      everything as it was, and still reports success. */
  method HandleCommand<S, E>(
      store: Store<S, E>, id: Id, mutate: (S, nat, nat) -> Mutation<E>, maxAttempts: int, option: int,
      cancelled: (nat, nat) -> bool)
    returns (r: Outcome, ghost before: seq<Message<S, E>>, ghost landed: bool, ghost attempt: nat, ghost due: bool,
             ghost saveCalls: nat)
    requires SnapshotsAgree(store.aggregate, store.stream.Timeline())
    modifies store`saves, store`executions, store`attempts, store.stream
    ensures old(store.stream.server.log) <= before
    ensures before + Concat(store.stream.others) == old(store.stream.Timeline())
    ensures landed ==> store.Landed(before, store.stream.server.log, id, mutate, attempt, due)
    ensures !landed ==> store.stream.server.log == before
    ensures landed ==> r == NoCommandError || r == CommandError(SaveFailed(PublishFailed))
    ensures option < 0 ==>
              && r == NoCommandError && store.executions == old(store.executions)
              && store.stream.server == old(store.stream.server) && store.stream.others == old(store.stream.others)
    ensures option >= 0 ==>
              old(store.executions) < store.executions <= old(store.executions) + (if option == 0 then 5 else option)
    ensures option >= 0 ==>
              saveCalls <= (if option == 0 then 5 else option) * (if maxAttempts < 1 then 1 else maxAttempts)
    ensures option >= 0 && r == NoCommandError ==> landed || store.Answered(before, id, mutate, attempt, Produce([]))
    ensures r.CommandError? ==>
              && !NoError(r.cause)
              && store.Explained(r.cause, old(store.stream.server.log), before, id, mutate, attempt,
                                 old(store.stream.Faultless()))
    ensures r == CommandError(Cancelled) ==> exists i, k :: cancelled(i, k)
    ensures r == CommandError(Exhausted) || r == CommandError(MutateFailed(true)) ==>
              !landed && store.executions == old(store.executions) + (if option == 0 then 5 else option)
  {
    hide Concat, SnapshotsAgree;
    before, landed, attempt, due, saveCalls := store.stream.server.log, false, 0, false, 0;
    r := NoCommandError;
    var retries := ConflictRetries(option);
    ghost var each := Normalised(maxAttempts);
    var i := 0;
    while i < retries
      invariant if retries < 0 then i == 0 else 0 <= i <= retries
      invariant store.executions == old(store.executions) + i && saveCalls <= i * each
      invariant old(store.stream.server.log) <= before == store.stream.server.log && !landed
      invariant store.stream.Timeline() == old(store.stream.Timeline())
      invariant old(store.stream.Faultless()) ==> store.stream.Faultless()
      invariant i == 0 ==> r == NoCommandError && store.stream.server == old(store.stream.server)
      invariant i == 0 ==> store.stream.others == old(store.stream.others)
      invariant i > 0 ==> r.CommandError? && IsConflict(r.cause)
      invariant i > 0 ==> store.Explained(r.cause, old(store.stream.server.log), before, id, mutate, attempt,
                                          old(store.stream.Faultless()))
    {
      var result;
      var round := i;
      ghost var n;
      ghost var since, faultless := store.stream.server.log, store.stream.Faultless();
      result, before, landed, attempt, due, n :=
        store.Execute(id, mutate, maxAttempts, (k: nat) => cancelled(round, k));
      saveCalls := saveCalls + n;
      store.ExplainedSince(result, old(store.stream.server.log), since, before, id, mutate, attempt, faultless,
                           old(store.stream.Faultless()));
      MoreCalls(i, each, retries, saveCalls);
      if NoError(result) {
        return NoCommandError, before, landed, attempt, due, saveCalls;
      }
      r := CommandError(result);
      if !IsConflict(result) {
        return r, before, landed, attempt, due, saveCalls;
      }
      i := i + 1;
    }
  }

  lemma {:induction false} MoreCalls(i: nat, each: nat, retries: nat, total: nat)
    requires i < retries && total <= i * each + each
    ensures total <= (i + 1) * each <= retries * each
    decreases retries
  {
    assert (i + 1) * each == i * each + each;
    if i + 1 < retries {
      MoreCalls(i, each, retries - 1, total);
      assert retries * each == (retries - 1) * each + each;
    }
  }
}
