/** One consume session and the messages behind it: what was in the stream when it
    subscribed, what has arrived since, what the server has sent along with the number of
    messages still pending, and what was handled.

    The server fixes a message's pending count when it sends the message; the session looks
    at it when it handles the message, by which time more may have arrived. */
module CatchUp {
  import opened Wrappers

  /** `inbox` holds, for each message sent and not begun, whether none was pending after it
      when it was sent; `handling` is that flag of the message being handled. */
  datatype Session = Session(
    backlog: nat, arrived: nat, sent: nat, inbox: seq<bool>, handling: Option<bool>, ended: nat, signals: nat)

  /** A session on a stream with `backlog` matching messages, all of them pending. */
  function NewSession(backlog: nat): Session {
    Session(backlog, backlog, 0, [], None, 0, 0)
  }

  /** Messages the server has not sent yet. */
  function Pending(x: Session): int {
    x.arrived - x.sent
  }

  function Arrive(x: Session): Session {
    x.(arrived := x.arrived + 1)
  }

  function Send(x: Session): Session {
    var x' := x.(sent := x.sent + 1);
    x'.(inbox := x.inbox + [Pending(x') == 0])
  }

  function Begin(x: Session): Session
    requires x.inbox != []
  {
    x.(inbox := x.inbox[1..], handling := Some(x.inbox[0]))
  }

  /** The handler of the message has returned. */
  function End(x: Session): Session {
    x.(handling := None, ended := x.ended + 1)
  }

  /** `caughtUpOnce`. */
  function Signalled(x: Session): Session {
    x.(signals := 1)
  }

  /** A session as `consume` sets it up: an ordered one without backlog signals at once. */
  function Opened(backlog: nat, isOrdered: bool): Session {
    var x := NewSession(backlog);
    if isOrdered && Pending(x) == 0 then Signalled(x) else x
  }

  /** A session after a handler: an ordered one signals after a message sent with none pending. */
  function Handled(x: Session, isOrdered: bool): Session {
    if isOrdered && x.handling == Some(true) then Signalled(End(x)) else End(x)
  }

  function One(p: bool): nat {
    if p then 1 else 0
  }

  /** The message sent last was sent with none pending, or its signal is out already. */
  predicate LatestIsLast(x: Session) {
    if x.inbox != [] then x.inbox[|x.inbox| - 1]
    else if x.handling.Some? then x.handling.value
    else x.signals == 1
  }

  /** Messages are handled in order, one at a time. A message sent with none pending has the
      whole backlog before it, so that a session that has signalled has handled its backlog;
      and an ordered session that has handled everything has signalled. */
  ghost predicate SessionInv(x: Session, isOrdered: bool) {
    && x.backlog <= x.arrived && x.sent <= x.arrived
    && x.sent == x.ended + One(x.handling.Some?) + |x.inbox|
    && x.signals <= One(isOrdered)
    && (x.signals == 1 ==> x.backlog <= x.ended)
    && (x.handling == Some(true) ==> x.backlog <= x.ended + 1)
    && (forall i | 0 <= i < |x.inbox| && x.inbox[i] :: x.backlog <= x.ended + One(x.handling.Some?) + i + 1)
    && (isOrdered && x.sent == x.arrived ==> LatestIsLast(x))
  }

  lemma OpenedIsRight(backlog: nat, isOrdered: bool)
    ensures SessionInv(Opened(backlog, isOrdered), isOrdered)
  {
    var x := Opened(backlog, isOrdered);
    assert x.inbox == [] && x.handling == None && x.sent == x.ended == 0 && x.arrived == x.backlog == backlog;
    hide Opened;
  }

  lemma ArriveKeepsSession(x: Session, isOrdered: bool)
    requires SessionInv(x, isOrdered)
    ensures SessionInv(Arrive(x), isOrdered)
  {
  }

  lemma SendKeepsSession(x: Session, isOrdered: bool)
    requires SessionInv(x, isOrdered) && Pending(x) > 0
    ensures SessionInv(Send(x), isOrdered)
  {
  }

  lemma BeginKeepsSession(x: Session, isOrdered: bool)
    requires SessionInv(x, isOrdered) && x.handling.None? && x.inbox != []
    ensures SessionInv(Begin(x), isOrdered)
  {
    var x' := Begin(x);
    assert forall i | 0 <= i < |x'.inbox| :: x'.inbox[i] == x.inbox[i + 1];
  }

  lemma HandledKeepsSession(x: Session, isOrdered: bool)
    requires SessionInv(x, isOrdered) && x.handling.Some?
    ensures SessionInv(Handled(x, isOrdered), isOrdered)
    ensures x.signals <= Handled(x, isOrdered).signals <= 1
  {
  }

  /** A session with nothing left to do has signalled. */
  lemma DrainedHasSignalled(x: Session)
    requires SessionInv(x, true) && x.ended == x.arrived
    ensures x.signals == 1
  {
  }
}
