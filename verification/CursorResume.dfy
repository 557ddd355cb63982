/** One ordered event group and its cursor across any number of crashes and restarts.

    Messages are numbered from 1; `log[i - 1]` tells whether message `i` is one the group's
    handlers are called for (it matches, decodes and passes the id check). Handling an event
    and saving its cursor are two steps, so a crash can fall between them, and a save can
    fail with or without having been stored. */
module CursorResume {
  import opened Wrappers
  import opened Int64
  import opened Cursor

  datatype BootPolicy = BootNew | BootAll

  /** `makeOnError`: whether a subscription goes on after an error, given what the user's
      hook answers, if there is one. If not, the bus disconnects. */
  predicate GoesOn(isQueue: bool, transport: bool, hook: Option<bool>) {
    if transport && hook.None? then true
    else if !isQueue && hook.None? then true
    else hook.Some? && hook.value
  }

  /** The message to be taken next; `handled` once its handlers have succeeded. */
  datatype Session = Session(next: nat, handled: bool)

  datatype State = State(
    log: seq<bool>, store: Option<seq<Byte>>, session: Option<Session>,
    saved: seq<nat>,          // history of the cursors stored
    succeeded: set<nat>,      // messages whose handlers all succeeded at some delivery
    passedOver: set<nat>)     // messages that failed while the session went on

  datatype SaveReply = Stored | NotStored | StoredButFailed

  datatype Action =
    | Append(wanted: bool)
    | Start(policy: BootPolicy)
    | Skip
    | Succeed
    | Fail(hook: Option<bool>)
    | Save(reply: SaveReply, hook: Option<bool>)
    | Crash                                       // or Disconnect

  function NewState(): State {
    State([], None, None, [], {}, {})
  }

  predicate AtMessage(s: State, handled: bool) {
    s.session.Some? && s.session.value.handled == handled && 1 <= s.session.value.next <= |s.log|
  }

  predicate Enabled(s: State, a: Action) {
    match a
    case Append(_) => |s.log| + 2 < TWO_TO_64
    case Start(_) => s.session.None?
    case Skip => AtMessage(s, false) && !s.log[s.session.value.next - 1]
    case Succeed => AtMessage(s, false) && s.log[s.session.value.next - 1]
    case Fail(_) => AtMessage(s, false) && s.log[s.session.value.next - 1]
    case Save(_, _) => AtMessage(s, true)
    case Crash => true
  }

  /** Where a consumer starts: after the stored cursor, in 64-bit arithmetic, or else by policy. */
  function StartSeq(s: State, policy: BootPolicy): nat {
    match s.store
    case Some(cursor) => (CursorToSeq(cursor) + 1) % TWO_TO_64
    case None => if policy.BootAll? then 1 else |s.log| + 1
  }

  function Onward(next: nat, goesOn: bool): Option<Session> {
    if goesOn then Some(Session(next + 1, false)) else None
  }

  function Next(s: State, a: Action): State
    requires Enabled(s, a)
  {
    match a
    case Append(wanted) => s.(log := s.log + [wanted])
    case Start(policy) => s.(session := Some(Session(StartSeq(s, policy), false)))
    case Skip => s.(session := Onward(s.session.value.next, true))
    case Succeed =>
      var n := s.session.value.next;
      s.(session := Some(Session(n, true)), succeeded := s.succeeded + {n})
    case Fail(hook) =>
      var n := s.session.value.next;
      var goesOn := GoesOn(false, false, hook);
      s.(session := Onward(n, goesOn), passedOver := if goesOn then s.passedOver + {n} else s.passedOver)
    case Save(reply, hook) =>
      var n := s.session.value.next;
      var s' := if reply.NotStored? then s else s.(store := Some(BigEndian(n, 8)), saved := s.saved + [n]);
      s'.(session := Onward(n, reply.Stored? || GoesOn(false, false, hook)))
    case Crash => s.(session := None)
  }

  function Run(acts: seq<Action>): State {
    if acts == [] then NewState()
    else
      var s := Run(acts[..|acts| - 1]);
      if Enabled(s, acts[|acts| - 1]) then Next(s, acts[|acts| - 1]) else s
  }

  /** The sequence of the stored cursor, 0 if there is none. */
  function CursorOf(s: State): nat {
    if s.saved == [] then 0 else s.saved[|s.saved| - 1]
  }

  predicate Wanted(s: State, i: nat) {
    1 <= i <= |s.log| && s.log[i - 1]
  }

  /** Cursors only grow, each belongs to an event handled successfully, the store holds the
      latest, and no session is ever back at or before it. */
  ghost predicate CursorInv(s: State) {
    && |s.log| + 1 < TWO_TO_64
    && (forall i, j | 0 <= i < j < |s.saved| :: s.saved[i] < s.saved[j])
    && (forall i | 0 <= i < |s.saved| :: Wanted(s, s.saved[i]) && s.saved[i] in s.succeeded)
    && s.store == (if s.saved == [] then None else Some(BigEndian(CursorOf(s), 8)))
    && (s.session.Some? ==>
          var session := s.session.value;
          CursorOf(s) < session.next && (session.handled ==> Wanted(s, session.next) && session.next in s.succeeded))
  }

  /** A consumer starts after the cursor, with policy All right after it. */
  lemma StartsAfterCursor(s: State, policy: BootPolicy)
    requires CursorInv(s)
    ensures CursorOf(s) < StartSeq(s, policy) <= |s.log| + 1
    ensures policy.BootAll? ==> StartSeq(s, policy) == CursorOf(s) + 1
  {
    if s.saved != [] {
      assert Wanted(s, s.saved[|s.saved| - 1]);
      CursorRoundTrip(CursorOf(s));
    }
  }

  lemma SaveKeepsCursorInv(s: State, reply: SaveReply, hook: Option<bool>)
    requires CursorInv(s) && Enabled(s, Save(reply, hook))
    ensures CursorInv(Next(s, Save(reply, hook)))
  {
    hide BigEndian, GoesOn;
    var n := s.session.value.next;
    forall i | 0 <= i < |s.saved| ensures s.saved[i] < n {
      assert s.saved[i] <= CursorOf(s);
    }
  }

  lemma StepKeepsCursorInv(s: State, a: Action)
    requires CursorInv(s) && Enabled(s, a)
    ensures CursorInv(Next(s, a))
  {
    hide BigEndian, CursorToSeq, StartSeq, GoesOn;
    match a
    case Start(policy) => StartsAfterCursor(s, policy);
    case Save(reply, hook) => SaveKeepsCursorInv(s, reply, hook);
    case _ =>
  }

  /** Across all crashes and restarts, cursors strictly increase, each is the sequence of an
      event whose handlers all succeeded, the store decodes to the latest one, and no event at
      or before it is ever delivered again. */
  lemma {:induction false} CursorsIncrease(acts: seq<Action>)
    ensures CursorInv(Run(acts))
  {
    if acts != [] {
      CursorsIncrease(acts[..|acts| - 1]);
      var s := Run(acts[..|acts| - 1]);
      if Enabled(s, acts[|acts| - 1]) {
        StepKeepsCursorInv(s, acts[|acts| - 1]);
      }
    }
  }

  ghost predicate Accounted(s: State, upTo: nat) {
    forall i: nat | i <= upTo && Wanted(s, i) :: i in s.succeeded || i in s.passedOver
  }

  ghost predicate CoverInv(s: State) {
    Accounted(s, CursorOf(s))
        && (s.session.Some? && s.session.value.next > 0 ==> Accounted(s, s.session.value.next - 1))
  }

  predicate BootsAll(a: Action) {
    a.Start? ==> a.policy.BootAll?
  }

  lemma AccountedGrows(s: State, s': State, upTo: nat)
    requires Accounted(s, upTo) && upTo <= |s.log| && s.log <= s'.log
    requires s.succeeded <= s'.succeeded && s.passedOver <= s'.passedOver
    ensures Accounted(s', upTo)
    ensures upTo < |s.log| && (s.log[upTo] ==> upTo + 1 in s'.succeeded || upTo + 1 in s'.passedOver) ==>
        Accounted(s', upTo + 1)
  {
  }

  lemma StepKeepsCoverInv(s: State, a: Action)
    requires CursorInv(s) && CoverInv(s) && Enabled(s, a) && BootsAll(a)
    requires s.session.Some? ==> s.session.value.next <= |s.log| + 1
    ensures CoverInv(Next(s, a))
    ensures var s' := Next(s, a); s'.session.Some? ==> s'.session.value.next <= |s'.log| + 1
  {
    StartsAfterCursor(s, BootAll);
    var s' := Next(s, a);
    AccountedGrows(s, s', CursorOf(s));
    if s.session.Some? {
      AccountedGrows(s, s', s.session.value.next - 1);
    }
    hide Accounted, StartSeq, BigEndian;
  }

  lemma {:induction false} RunKeepsCoverInv(acts: seq<Action>)
    requires forall a | a in acts :: BootsAll(a)
    ensures CoverInv(Run(acts))
    ensures var s := Run(acts); s.session.Some? ==> s.session.value.next <= |s.log| + 1
  {
    if acts != [] {
      RunKeepsCoverInv(acts[..|acts| - 1]);
      CursorsIncrease(acts[..|acts| - 1]);
      var s := Run(acts[..|acts| - 1]);
      if Enabled(s, acts[|acts| - 1]) {
        StepKeepsCoverInv(s, acts[|acts| - 1]);
      }
    }
  }

  /** With boot policy All nothing below the cursor is lost silently: every wanted event up to
      it was handled successfully, or failed and the error hook let the session go on. */
  lemma NothingMissedSilently(acts: seq<Action>, i: nat)
    requires forall a | a in acts :: BootsAll(a)
    requires Wanted(Run(acts), i) && i <= CursorOf(Run(acts))
    ensures i in Run(acts).succeeded || i in Run(acts).passedOver
  {
    RunKeepsCoverInv(acts);
  }

  /** What an error does to an ordered session, a failed save of the cursor included: without a
      hook, or with one that says so, it goes on to the next message, and otherwise it ends. */
  lemma ErrorsFollowTheHook(acts: seq<Action>, a: Action)
    requires Enabled(Run(acts), a) && (a.Fail? || (a.Save? && !a.reply.Stored?))
    ensures
      var s, s' := Run(acts), Run(acts + [a]);
      s'.session == if a.hook == Some(false) then None else Some(Session(s.session.value.next + 1, false))
  {
    RunSnoc(acts, a);
  }

  /** Without an error the session goes on in any case. */
  lemma SuccessGoesOn(acts: seq<Action>, a: Action)
    requires Enabled(Run(acts), a) && (a.Skip? || (a.Save? && a.reply.Stored?))
    ensures
      var s, s' := Run(acts), Run(acts + [a]);
      s'.session == Some(Session(s.session.value.next + 1, false))
  {
    RunSnoc(acts, a);
  }

  /** The settings of a bus: every start uses `policy`, every error is answered by `hook`. */
  predicate Configured(acts: seq<Action>, policy: BootPolicy, hook: Option<bool>) {
    forall a | a in acts ::
      (a.Start? ==> a.policy == policy) && (a.Fail? ==> a.hook == hook) && (a.Save? ==> a.hook == hook)
  }

  ghost predicate AllSucceeded(s: State) {
    forall i: nat | Wanted(s, i) && i <= CursorOf(s) :: i in s.succeeded
  }

  lemma {:induction false} StoppingPassesNothingOver(acts: seq<Action>, policy: BootPolicy)
    requires Configured(acts, policy, Some(false))
    ensures Run(acts).passedOver == {}
  {
    if acts != [] {
      StoppingPassesNothingOver(acts[..|acts| - 1], policy);
    }
  }

  lemma RunSnoc(acts: seq<Action>, a: Action)
    ensures Run(acts + [a]) == if Enabled(Run(acts), a) then Next(Run(acts), a) else Run(acts)
  {
    assert (acts + [a])[..|acts|] == acts;
  }

  /** Two events, the first of which is not handled, and the cursor after the second. */
  function LateStart(hook: Option<bool>): seq<Action> {
    [Append(true)] + [Start(BootNew)] + [Append(true)] + [Succeed] + [Save(Stored, hook)]
  }

  function SkippedFailure(hook: Option<bool>): seq<Action> {
    [Append(true)] + [Append(true)] + [Start(BootAll)] + [Fail(hook)] + [Succeed] + [Save(Stored, hook)]
  }

  lemma OneAwaits(acts: seq<Action>)
    requires acts == [Append(true)] + [Start(BootNew)] + [Append(true)]
    ensures Run(acts) == NewState().(log := [true, true], session := Some(Session(2, false)))
  {
    var a1: seq<Action> := [Append(true)];
    assert Run(a1) == NewState().(log := [true]);
    hide Run;
    RunSnoc(a1, Start(BootNew));
    RunSnoc(a1 + [Start(BootNew)], Append(true));
  }

  lemma LateStartLoses(hook: Option<bool>)
    ensures !AllSucceeded(Run(LateStart(hook))) && Configured(LateStart(hook), BootNew, hook)
  {
    hide Run, BigEndian, StartSeq;
    var a3 := [Append(true)] + [Start(BootNew)] + [Append(true)];
    OneAwaits(a3);
    RunSnoc(a3, Succeed);
    RunSnoc(a3 + [Succeed], Save(Stored, hook));
    var s := Run(LateStart(hook));
    assert CursorOf(s) == 2 && Wanted(s, 1) && 1 !in s.succeeded;
  }

  lemma TwoAwait(acts: seq<Action>)
    requires acts == [Append(true)] + [Append(true)] + [Start(BootAll)]
    ensures Run(acts) == NewState().(log := [true, true], session := Some(Session(1, false)))
  {
    var a1: seq<Action> := [Append(true)];
    assert Run(a1) == NewState().(log := [true]);
    hide Run;
    RunSnoc(a1, Append(true));
    RunSnoc(a1 + [Append(true)], Start(BootAll));
  }

  lemma SkippedFailureLoses(hook: Option<bool>)
    requires hook != Some(false)
    ensures !AllSucceeded(Run(SkippedFailure(hook))) && Configured(SkippedFailure(hook), BootAll, hook)
  {
    hide Run, BigEndian, StartSeq;
    var a3 := [Append(true)] + [Append(true)] + [Start(BootAll)];
    TwoAwait(a3);
    RunSnoc(a3, Fail(hook));
    assert Run(a3 + [Fail(hook)]).session == Some(Session(2, false));
    RunSnoc(a3 + [Fail(hook)], Succeed);
    RunSnoc(a3 + [Fail(hook)] + [Succeed], Save(Stored, hook));
    var s := Run(SkippedFailure(hook));
    assert CursorOf(s) == 2 && Wanted(s, 1) && 1 !in s.succeeded;
  }

  /** Every run of a bus keeps the promise that all wanted events up to its cursor were
      handled successfully, exactly when the bus boots from the beginning and its error hook
      stops on every error. The default, without a hook, does not: ordered errors go on. */
  lemma ResumeIsCompleteIff(policy: BootPolicy, hook: Option<bool>)
    ensures (forall acts | Configured(acts, policy, hook) :: AllSucceeded(Run(acts)))
            <==> (policy == BootAll && hook == Some(false))
  {
    hide Run, LateStart, SkippedFailure;
    if policy == BootAll && hook == Some(false) {
      forall acts | Configured(acts, policy, hook) ensures AllSucceeded(Run(acts)) {
        RunKeepsCoverInv(acts);
        StoppingPassesNothingOver(acts, policy);
      }
    } else if policy == BootNew {
      LateStartLoses(hook);
    } else {
      SkippedFailureLoses(hook);
    }
  }
}
