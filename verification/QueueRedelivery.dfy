/** One message on a queue consumer: how often it is delivered, and when a failing handler
    is reported to the subscription's error hook.

    A delivery that gets no answer in time, because it was lost, its process died or its
    acknowledgement went astray, can be followed by another one while it is still being
    handled, so several can be in flight and end in any order. */
module QueueRedelivery {
  import opened Int64

  /** `onError`: whether the subscription has an error hook. */
  datatype Config = Config(maxRetries: int, onError: bool)

  /** The consumer's `MaxDeliver`; the server takes a negative one for no limit. */
  function MaxDeliver(maxRetries: int): int {
    if maxRetries < 0 then -1
    else if maxRetries > 0 then Wrap(maxRetries + 1)
    else 1
  }

  datatype Message = Message(delivered: nat, inFlight: set<nat>, acked: bool, failed: set<nat>, escalated: seq<nat>)

  datatype Ending =
    | Acked            // handled, or not for this subscription
    | HandlerFailed    // an error or a panic
    | DecodeRejected   // sent back without calling the handler
    | Lost             // no answer reaches the server

  datatype Action = Deliver | End(delivery: nat, ending: Ending)

  function NewMessage(): Message {
    Message(0, {}, false, {}, [])
  }

  predicate Enabled(c: Config, m: Message, a: Action) {
    match a
    case Deliver => !m.acked && (MaxDeliver(c.maxRetries) < 0 || m.delivered < MaxDeliver(c.maxRetries))
    case End(d, _) => d in m.inFlight
  }

  /** `onError` goes to the hook only with retries limited and used up. */
  predicate Escalates(c: Config, numDelivered: nat) {
    if !c.onError then false
    else if c.maxRetries < 0 then false
    else !(numDelivered <= c.maxRetries)
  }

  function Next(c: Config, m: Message, a: Action): Message
    requires Enabled(c, m, a)
  {
    match a
    case Deliver => m.(delivered := m.delivered + 1, inFlight := m.inFlight + {m.delivered + 1})
    case End(d, ending) =>
      var m' := m.(inFlight := m.inFlight - {d});
      match ending
      case Acked => m'.(acked := true)
      case HandlerFailed =>
        m'.(failed := m.failed + {d}, escalated := if Escalates(c, d) then m.escalated + [d] else m.escalated)
      case DecodeRejected => m'
      case Lost => m'
  }

  function Run(c: Config, acts: seq<Action>): Message {
    if acts == [] then NewMessage()
    else
      var m := Run(c, acts[..|acts| - 1]);
      if Enabled(c, m, acts[|acts| - 1]) then Next(c, m, acts[|acts| - 1]) else m
  }

  ghost predicate Inv(c: Config, m: Message) {
    && (MaxDeliver(c.maxRetries) < 0 || m.delivered <= MaxDeliver(c.maxRetries))
    && (forall d | d in m.inFlight || d in m.failed :: 1 <= d <= m.delivered)
    && m.inFlight !! m.failed
    && (forall d :: d in m.escalated <==> d in m.failed && Escalates(c, d))
    && (forall i, j | 0 <= i < j < |m.escalated| :: m.escalated[i] != m.escalated[j])
  }

  lemma {:induction false} RunKeepsInv(c: Config, acts: seq<Action>)
    ensures Inv(c, Run(c, acts))
  {
    if acts != [] {
      RunKeepsInv(c, acts[..|acts| - 1]);
    }
  }

  /** Each delivery number escalates at most once, and does exactly when its handler failed
      after the retries were used up; with unlimited retries or no hook, never. */
  lemma EscalationIsExact(c: Config, acts: seq<Action>, d: nat)
    ensures var m := Run(c, acts); d in m.escalated <==> d in m.failed && c.onError && 0 <= c.maxRetries < d
    ensures var m := Run(c, acts); forall i, j | 0 <= i < j < |m.escalated| :: m.escalated[i] != m.escalated[j]
    ensures c.maxRetries < 0 || !c.onError ==> Run(c, acts).escalated == []
  {
    RunKeepsInv(c, acts);
    EscalatedFailed(c, Run(c, acts));
  }

  lemma EscalatedFailed(c: Config, m: Message)
    requires Inv(c, m)
    ensures forall i | 0 <= i < |m.escalated| :: m.escalated[i] in m.failed && Escalates(c, m.escalated[i])
  {
  }

  /** With `MaxRetries` n, a message is delivered at most n + 1 times, and the hook is told
      once if the handler fails on delivery n + 1 and not at all otherwise. */
  lemma AtMostRetriesPlusOne(c: Config, acts: seq<Action>)
    requires 0 <= c.maxRetries < TWO_TO_63 - 1
    ensures var m := Run(c, acts); m.delivered <= c.maxRetries + 1
    ensures
      var m := Run(c, acts);
      m.escalated == if c.onError && c.maxRetries + 1 in m.failed then [c.maxRetries + 1] else []
  {
    var m := Run(c, acts);
    RunKeepsInv(c, acts);
    EscalatedFailed(c, m);
    assert forall i | 0 <= i < |m.escalated| :: m.escalated[i] == c.maxRetries + 1;
    if |m.escalated| > 1 {
      Repeats(m.escalated, c.maxRetries + 1);
    }
  }

  lemma Repeats(s: seq<nat>, v: nat)
    requires |s| > 1 && forall i | 0 <= i < |s| :: s[i] == v
    ensures exists i, j :: 0 <= i < j < |s| && s[i] == s[j]
  {
    assert s[0] == s[1];
  }

  lemma AckedStepDeliversNothing(c: Config, m: Message, a: Action)
    requires m.acked && Enabled(c, m, a)
    ensures Next(c, m, a).acked && Next(c, m, a).delivered == m.delivered
  {
  }

  /** MAIN RESULT: a message that was acknowledged is never delivered again. */
  lemma {:induction false} AckedIsFinal(c: Config, acts: seq<Action>, d: nat, more: seq<Action>)
    requires Enabled(c, Run(c, acts), End(d, Acked))
    ensures
      var m := Run(c, acts + [End(d, Acked)] + more);
      m.acked && m.delivered == Run(c, acts).delivered
    decreases |more|
  {
    var start := acts + [End(d, Acked)];
    if more == [] {
      assert start + more == start;
      RunSnoc(c, acts, End(d, Acked));
    } else {
      var now, a := start + more[..|more| - 1], more[|more| - 1];
      assert start + more == now + [a];
      AckedIsFinal(c, acts, d, more[..|more| - 1]);
      hide Run, Enabled, Next;
      RunSnoc(c, now, a);
      if Enabled(c, Run(c, now), a) {
        AckedStepDeliversNothing(c, Run(c, now), a);
      }
    }
  }

  function LostDeliveries(k: nat): seq<Action> {
    if k == 0 then [] else LostDeliveries(k - 1) + [Deliver]
  }

  lemma {:induction false} UnlimitedDeliveries(c: Config, k: nat)
    requires MaxDeliver(c.maxRetries) < 0
    ensures var m := Run(c, LostDeliveries(k)); m.delivered == k && !m.acked
  {
    if k > 0 {
      UnlimitedDeliveries(c, k - 1);
      assert (LostDeliveries(k - 1) + [Deliver])[..|LostDeliveries(k - 1)|] == LostDeliveries(k - 1);
    }
  }

  /** The retries are there to be used: every delivery up to n + 1 happens in some run, also if
      all that went before it failed. */
  lemma {:induction false} FailedDeliveries(c: Config, k: nat)
    requires IsInt64(c.maxRetries)
    requires c.maxRetries < 0 || c.maxRetries == TWO_TO_63 - 1 || k <= c.maxRetries + 1
    ensures
      var m := Run(c, FailingRun(k));
      m.delivered == k && !m.acked && m.inFlight == {} && forall d | 1 <= d <= k :: d in m.failed
  {
    if k > 0 {
      FailedDeliveries(c, k - 1);
      var before := FailingRun(k - 1);
      LimitIs(c.maxRetries);
      hide Run, MaxDeliver, FailingRun;
      RunSnoc(c, before, Deliver);
      RunSnoc(c, before + [Deliver], End(k, HandlerFailed));
      FailingRunSnoc(k);
    }
  }

  lemma RunSnoc(c: Config, acts: seq<Action>, a: Action)
    ensures
      var m := Run(c, acts);
      Run(c, acts + [a]) == if Enabled(c, m, a) then Next(c, m, a) else m
  {
    assert (acts + [a])[..|acts|] == acts;
  }

  lemma FailingRunSnoc(k: nat)
    requires k > 0
    ensures FailingRun(k) == FailingRun(k - 1) + [Deliver] + [End(k, HandlerFailed)]
  {
  }

  function FailingRun(k: nat): seq<Action> {
    if k == 0 then [] else FailingRun(k - 1) + [Deliver] + [End(k, HandlerFailed)]
  }

  lemma LimitIs(maxRetries: int)
    ensures 0 <= maxRetries < TWO_TO_63 - 1 ==> MaxDeliver(maxRetries) == maxRetries + 1
    ensures maxRetries < 0 || maxRetries == TWO_TO_63 - 1 ==> MaxDeliver(maxRetries) < 0
  {
    assert Wrap(TWO_TO_63) == -TWO_TO_63;
  }

  /** MAIN RESULT: a handler that always fails is given all n + 1 deliveries, and then the hook
      is told once. */
  lemma AllRetriesThenEscalation(c: Config)
    requires 0 <= c.maxRetries < TWO_TO_63 - 1 && c.onError
    ensures
      var m := Run(c, FailingRun(c.maxRetries + 1));
      m.delivered == c.maxRetries + 1 && m.escalated == [c.maxRetries + 1]
  {
    FailedDeliveries(c, c.maxRetries + 1);
    AtMostRetriesPlusOne(c, FailingRun(c.maxRetries + 1));
  }

  ghost predicate DeliversAtMost(c: Config, bound: nat) {
    forall acts :: Run(c, acts).delivered <= bound
  }

  /** Deliveries are bounded exactly for the retry counts from 0 up to the last but one 64-bit
      integer: negative ones mean no limit, and the largest one overflows into no limit. */
  lemma DeliveriesBoundedIff(c: Config)
    requires IsInt64(c.maxRetries)
    ensures (exists bound :: DeliversAtMost(c, bound)) <==> 0 <= c.maxRetries < TWO_TO_63 - 1
  {
    if 0 <= c.maxRetries < TWO_TO_63 - 1 {
      forall acts ensures Run(c, acts).delivered <= c.maxRetries + 1 {
        AtMostRetriesPlusOne(c, acts);
      }
      assert DeliversAtMost(c, c.maxRetries + 1);
    } else {
      forall bound: nat ensures !DeliversAtMost(c, bound) {
        NoLimit(c.maxRetries);
        UnlimitedDeliveries(c, bound + 1);
        assert Run(c, LostDeliveries(bound + 1)).delivered > bound;
      }
    }
  }

  lemma NoLimit(maxRetries: int)
    requires maxRetries < 0 || maxRetries == TWO_TO_63 - 1
    ensures MaxDeliver(maxRetries) < 0
  {
    assert TWO_TO_63 + TWO_TO_63 == TWO_TO_64;
    assert Wrap(TWO_TO_63) == -TWO_TO_63;
  }
}
