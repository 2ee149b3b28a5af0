/**
 engineclient/client.go: requests multiplexed over sessions that die and are
 replaced. Every step below is one region under the client's mutex, or one send
 on a reply channel; goroutines interleave them in any order.

 A reply channel has one slot and is named by its request's id. An envelope is a
 message that has left pending in some region, is in the hands of the goroutine
 that ran it, and is still to be sent.
 */
module EngineClient {
  import opened Options

  // ticket: the region that took the channel out of pending. from: the session
  // that region served. answer: a response, rather than "disconnected".
  datatype Envelope = Envelope(ticket: nat, id: nat, from: Option<nat>, answer: bool)

  datatype Greeting = Greeting(session: nat, compatible: bool, elevated: bool)

  // drawn: ids taken from sequence whose requests have not registered yet.
  // registered, withdrawn and sent record the past.
  datatype State = State(
    session: Option<nat>,
    pending: set<nat>,
    hello: Option<Greeting>,
    closed: bool,
    closing: bool,
    sequence: nat,
    drawn: set<nat>,
    launched: nat,
    ticket: nat,
    inHand: set<Envelope>,
    sent: set<Envelope>,
    registered: map<nat, nat>,
    withdrawn: set<nat>)

  const FRESH := State(None, {}, None, false, false, 0, {}, 0, 0, {}, {}, map[], {})

  datatype Step =
    | Connect
    | Greet(session: nat, compatible: bool, elevated: bool)
    | Draw
    | Register(id: nat)
    | Withdraw(id: nat)
    | Receive(session: nat, id: nat)
    | Kill
    | Fail(session: nat)
    | Send(envelope: Envelope)
    | CloseFlag
    | CloseKill

  // ---- the regions ----

  // negotiateSession registers a new session unless the client is closed or
  // another session is up.
  function Connected(s: State): State {
    if s.closed || s.session.Some? then s.(launched := s.launched + 1)
    else s.(session := Some(s.launched), launched := s.launched + 1, pending := {}, hello := None)
  }

  // The handshake's result is stored if its session is still current; a bad one
  // never gets here, its session is killed instead.
  function Greeted(s: State, greeting: Greeting): State {
    if s.session == Some(greeting.session) && greeting.compatible then s.(hello := Some(greeting)) else s
  }

  function Drawn(s: State): State {
    s.(sequence := s.sequence + 1, drawn := s.drawn + {s.sequence + 1})
  }

  function RegisteredRequest(s: State, id: nat): State {
    if id !in s.drawn then s
    else if s.session.None? then s.(drawn := s.drawn - {id})
    else s.(drawn := s.drawn - {id}, pending := s.pending + {id},
            registered := s.registered[id := s.session.value])
  }

  function Withdrawn(s: State, id: nat): State {
    if id in s.pending then s.(pending := s.pending - {id}, withdrawn := s.withdrawn + {id}) else s
  }

  // readLoop of one session: a loop that is not the current session's stops.
  function Received(s: State, session: nat, id: nat): State {
    if s.session != Some(session) || id !in s.pending then s
    else s.(pending := s.pending - {id}, ticket := s.ticket + 1,
            inHand := s.inHand + {Envelope(s.ticket, id, s.session, true)})
  }

  function Failures(s: State): set<Envelope> {
    set id | id in s.pending :: Envelope(s.ticket, id, s.session, false)
  }

  function Killed(s: State): State {
    s.(session := None, pending := {}, hello := None, ticket := s.ticket + 1, inHand := s.inHand + Failures(s))
  }

  function Failed(s: State, session: nat): State {
    if s.session != Some(session) then s else Killed(s)
  }

  function Delivered(s: State, envelope: Envelope): State {
    if envelope in s.inHand then s.(inHand := s.inHand - {envelope}, sent := s.sent + {envelope}) else s
  }

  // Close: a call that finds the flag set returns at once.
  function Flagged(s: State): State {
    if s.closed then s else s.(closed := true, closing := true)
  }

  function CloseKilled(s: State): State {
    if s.closing then Killed(s).(closing := false) else s
  }

  function Next(s: State, step: Step): State {
    match step
    case Connect => Connected(s)
    case Greet(session, compatible, elevated) => Greeted(s, Greeting(session, compatible, elevated))
    case Draw => Drawn(s)
    case Register(id) => RegisteredRequest(s, id)
    case Withdraw(id) => Withdrawn(s, id)
    case Receive(session, id) => Received(s, session, id)
    case Kill => Killed(s)
    case Fail(session) => Failed(s, session)
    case Send(envelope) => Delivered(s, envelope)
    case CloseFlag => Flagged(s)
    case CloseKill => CloseKilled(s)
  }

  function After(s: State, steps: seq<Step>): State
    decreases |steps|
  {
    if steps == [] then s else After(Next(s, steps[0]), steps[1..])
  }

  // A run takes its steps in turn, all of them.
  lemma {:induction false} RunTakesEveryStep(s: State, steps: seq<Step>, last: Step)
    ensures After(s, []) == s && After(s, steps + [last]) == Next(After(s, steps), last)
    decreases |steps|
  {
    if steps == [] {
      assert After(s, [last]) == After(Next(s, last), []);
    } else {
      RunTakesEveryStep(Next(s, steps[0]), steps[1..], last);
      assert (steps + [last])[1..] == steps[1..] + [last];
    }
  }

  // ---- what every interleaving keeps ----

  ghost predicate Messaged(s: State, id: nat) {
    exists e :: e in s.inHand + s.sent && e.id == id
  }

  ghost predicate SessionsSound(s: State) {
    && (s.session.None? ==> s.pending == {} && s.hello.None?)
    && (s.session.Some? ==> s.session.value < s.launched)
    && (s.hello.Some? ==> s.session == Some(s.hello.value.session) && s.hello.value.compatible)
    && (s.closing ==> s.closed)
    && (s.closed && !s.closing ==> s.session.None?)
  }

  // A pending request belongs to the current session and to nobody else.
  ghost predicate PendingSound(s: State) {
    && (forall id | id in s.drawn :: id <= s.sequence && id !in s.registered)
    && (forall id | id in s.registered :: id <= s.sequence)
    && (forall id | id in s.pending :: id in s.registered && s.session == Some(s.registered[id]))
    && (forall id | id in s.withdrawn :: id in s.registered)
    && s.pending !! s.withdrawn
  }

  // At most one message for an id, from the session it was registered under.
  ghost predicate MessagesSound(s: State) {
    && s.inHand !! s.sent
    && (forall e | e in s.inHand + s.sent ::
          && e.id in s.registered && e.from == Some(s.registered[e.id])
          && e.id !in s.pending && e.id !in s.withdrawn && e.ticket < s.ticket)
    && (forall e, f | e in s.inHand + s.sent && f in s.inHand + s.sent && e.id == f.id :: e == f)
  }

  // Nothing registered is lost.
  ghost predicate Accounted(s: State) {
    forall id | id in s.registered :: id in s.pending || id in s.withdrawn || Messaged(s, id)
  }

  ghost predicate Sound(s: State) {
    SessionsSound(s) && PendingSound(s) && MessagesSound(s) && Accounted(s)
  }

  // Moving every pending request into the hands of one region.
  lemma KillKeepsSound(s: State)
    requires Sound(s)
    ensures Sound(Killed(s))
  {
  }

  lemma ReceiveKeepsSound(s: State, session: nat, id: nat)
    requires Sound(s)
    ensures Sound(Received(s, session, id))
  {
  }

  lemma SendKeepsSound(s: State, envelope: Envelope)
    requires Sound(s)
    ensures Sound(Delivered(s, envelope))
  {
  }

  lemma RegisterKeepsSound(s: State, id: nat)
    requires Sound(s)
    ensures Sound(RegisteredRequest(s, id))
  {
  }

  lemma WithdrawKeepsSound(s: State, id: nat)
    requires Sound(s)
    ensures Sound(Withdrawn(s, id))
  {
  }

  lemma DrawKeepsSound(s: State)
    requires Sound(s)
    ensures Sound(Drawn(s))
  {
  }

  // Emptying pending loses nothing: there was no session, so nobody waited.
  lemma ConnectKeepsSound(s: State)
    requires Sound(s)
    ensures Sound(Connected(s)) && Connected(s).pending == s.pending
  {
  }

  lemma SameMessages(s: State, t: State)
    requires s.inHand == t.inHand && s.sent == t.sent
    ensures forall id :: Messaged(s, id) <==> Messaged(t, id)
  {
  }

  lemma StepKeepsSound(s: State, step: Step)
    requires Sound(s)
    ensures Sound(Next(s, step))
  {
    match step {
      case Receive(session, id) => ReceiveKeepsSound(s, session, id);
      case Kill => KillKeepsSound(s);
      case Fail(session) => KillKeepsSound(s);
      case Send(envelope) => SendKeepsSound(s, envelope);
      case CloseKill =>
        KillKeepsSound(s);
        SameMessages(Killed(s), Killed(s).(closing := false));
      case Connect => ConnectKeepsSound(s);
      case Draw => DrawKeepsSound(s);
      case Register(id) => RegisterKeepsSound(s, id);
      case Withdraw(id) => WithdrawKeepsSound(s, id);
      case Greet(session, compatible, elevated) =>
        SameMessages(s, Greeted(s, Greeting(session, compatible, elevated)));
      case CloseFlag => SameMessages(s, Flagged(s));
    }
  }

  // Every interleaving, from a new client on.
  lemma {:induction false} RunKeepsSound(s: State, steps: seq<Step>)
    requires Sound(s)
    ensures Sound(After(s, steps))
    decreases |steps|
  {
    if steps != [] {
      StepKeepsSound(s, steps[0]);
      RunKeepsSound(Next(s, steps[0]), steps[1..]);
    }
  }

  // ---- main results ----

  // A request registered in any run has one fate: it is waiting for the current
  // session, its caller gave up, or its channel has been given exactly one
  // message, by the session it was registered under.
  lemma OneFate(steps: seq<Step>, id: nat)
    requires id in After(FRESH, steps).registered
    ensures var s := After(FRESH, steps);
            || (id in s.pending && s.session == Some(s.registered[id]) && id !in s.withdrawn && !Messaged(s, id))
            || (id in s.withdrawn && id !in s.pending && !Messaged(s, id))
            || (id !in s.pending && id !in s.withdrawn
                && exists e :: e in s.inHand + s.sent && e.id == id && e.from == Some(s.registered[id])
                    && forall f | f in s.inHand + s.sent && f.id == id :: f == e)
  {
    RunKeepsSound(FRESH, steps);
    var s := After(FRESH, steps);
    if Messaged(s, id) {
      var e :| e in s.inHand + s.sent && e.id == id;
      assert forall f | f in s.inHand + s.sent && f.id == id :: f == e;
    }
  }

  lemma SlotIsFree(s: State, envelope: Envelope)
    requires Sound(s) && envelope in s.inHand
    ensures forall e | e in s.sent :: e.id != envelope.id
  {
  }

  // The one slot is empty whenever a goroutine sends: no sender ever blocks.
  lemma SendersNeverBlock(steps: seq<Step>, envelope: Envelope)
    requires envelope in After(FRESH, steps).inHand
    ensures forall e | e in After(FRESH, steps).sent :: e.id != envelope.id
  {
    RunKeepsSound(FRESH, steps);
    SlotIsFree(After(FRESH, steps), envelope);
  }

  // However a session ends, every request still waiting for it is answered, and
  // those that end it take no other channel.
  lemma DyingSessionAnswersAll(steps: seq<Step>, session: nat, step: Step)
    requires After(FRESH, steps).session == Some(session)
    requires step.Kill? || step == Fail(session)
    ensures var s := After(FRESH, steps);
            var t := Next(s, step);
            && t.session.None? && t.pending == {} && t.sent == s.sent
            && forall id | id in s.registered ::
                 (id in s.pending <==>
                   exists e :: e in t.inHand && e !in s.inHand && e.id == id && e.from == Some(session) && !e.answer)
  {
    RunKeepsSound(FRESH, steps);
    var s := After(FRESH, steps);
    var t := Next(s, step);
    forall id | id in s.pending
      ensures exists e :: e in t.inHand && e !in s.inHand && e.id == id && e.from == Some(session) && !e.answer
    {
      var e := Envelope(s.ticket, id, s.session, false);
      assert e in Failures(s);
      assert e in s.inHand ==> e in s.inHand + s.sent;
      assert e in t.inHand && e !in s.inHand;
    }
  }

  // With no session and nothing in flight, every request ever registered has
  // its one message or was given up by its caller.
  lemma NobodyWaitsForever(steps: seq<Step>, id: nat)
    requires var s := After(FRESH, steps); s.session.None? && s.inHand == {} && id in s.registered
    ensures var s := After(FRESH, steps);
            id in s.withdrawn || exists e :: e in s.sent && e.id == id
  {
    RunKeepsSound(FRESH, steps);
    var s := After(FRESH, steps);
    if id !in s.withdrawn {
      assert Messaged(s, id);
      var e :| e in s.inHand + s.sent && e.id == id;
      assert e in s.sent;
    }
  }

  // ---- what a message says ----

  // The current session's loop puts one new message in hand for a request that
  // waits: the response itself, from that session, to that request.
  ghost predicate Forwards(s: State, t: State, session: nat, id: nat, e: Envelope) {
    && t.pending == s.pending - {id} && t.sent == s.sent && t.session == s.session
    && e !in s.inHand + s.sent && t.inHand == s.inHand + {e}
    && e.id == id && e.answer && e.from == Some(session)
  }

  lemma ReceiveForwards(s: State, session: nat, id: nat) returns (e: Envelope)
    requires Sound(s) && s.session == Some(session) && id in s.pending
    ensures Forwards(s, Next(s, Receive(session, id)), session, id, e)
  {
    e := Envelope(s.ticket, id, s.session, true);
    assert Next(s, Receive(session, id)).inHand == s.inHand + {e};
  }

  lemma ResponseIsForwarded(steps: seq<Step>, session: nat, id: nat)
    requires After(FRESH, steps).session == Some(session) && id in After(FRESH, steps).pending
    ensures exists e :: Forwards(After(FRESH, steps), Next(After(FRESH, steps), Receive(session, id)), session, id, e)
  {
    RunKeepsSound(FRESH, steps);
    var e := ReceiveForwards(After(FRESH, steps), session, id);
  }

  // "Disconnected" is said only for sessions that have ended.
  ghost predicate RefusalsSound(s: State) {
    && (forall id | id in s.registered :: s.registered[id] < s.launched)
    && (forall e | e in s.inHand + s.sent && !e.answer :: s.session != e.from)
  }

  lemma StepKeepsRefusals(s: State, step: Step)
    requires Sound(s) && RefusalsSound(s)
    ensures RefusalsSound(Next(s, step))
  {
    var t := Next(s, step);
    forall e | e in t.inHand + t.sent && !e.answer
      ensures t.session != e.from
    {
      if e in s.inHand + s.sent {
        assert s.registered[e.id] < s.launched;
      }
    }
  }

  lemma {:induction false} RunKeepsRefusals(s: State, steps: seq<Step>)
    requires Sound(s) && RefusalsSound(s)
    ensures RefusalsSound(After(s, steps))
    decreases |steps|
  {
    if steps != [] {
      StepKeepsSound(s, steps[0]);
      StepKeepsRefusals(s, steps[0]);
      RunKeepsRefusals(Next(s, steps[0]), steps[1..]);
    }
  }

  lemma NewAnswerIsReceived(s: State, step: Step, e: Envelope)
    requires Sound(s) && e.answer
    requires e in Next(s, step).inHand + Next(s, step).sent && e !in s.inHand + s.sent
    ensures e.from.Some? && step == Receive(e.from.value, e.id)
  {
  }

  lemma {:induction false} NewAnswerWasReceived(s: State, steps: seq<Step>, e: Envelope)
    requires Sound(s) && e.answer
    requires e in After(s, steps).inHand + After(s, steps).sent && e !in s.inHand + s.sent
    ensures e.from.Some? && Receive(e.from.value, e.id) in steps
    decreases |steps|
  {
    var next := Next(s, steps[0]);
    if e in next.inHand + next.sent {
      NewAnswerIsReceived(s, steps[0], e);
    } else {
      StepKeepsSound(s, steps[0]);
      NewAnswerWasReceived(next, steps[1..], e);
    }
  }

  // In every run, whoever is told "disconnected" had a session that has ended,
  // and whoever gets a response, got one that this session's loop received.
  lemma MessagesAreTrue(steps: seq<Step>, e: Envelope)
    requires e in After(FRESH, steps).inHand + After(FRESH, steps).sent
    ensures e.from.Some?
    ensures !e.answer ==> After(FRESH, steps).session != e.from
    ensures e.answer ==> Receive(e.from.value, e.id) in steps
  {
    RunKeepsSound(FRESH, steps);
    RunKeepsRefusals(FRESH, steps);
    if e.answer {
      NewAnswerWasReceived(FRESH, steps, e);
    }
  }

  // A request to a session that is up can always be answered: drawn, registered,
  // received and sent, its caller holds exactly one message, the response.
  lemma RequestIsAnswered(steps: seq<Step>, session: nat)
    requires After(FRESH, steps).session == Some(session)
    ensures var s := After(FRESH, steps);
            var id := s.sequence + 1;
            var waiting := Next(Next(s, Draw), Register(id));
            var received := Next(waiting, Receive(session, id));
            && id !in s.registered && Waits(s, waiting, id)
            && exists e :: Forwards(waiting, received, session, id, e) && Sends(received, Next(received, Send(e)), e)
  {
    RunKeepsSound(FRESH, steps);
    var s := After(FRESH, steps);
    var id := s.sequence + 1;
    RegisteredWaits(s, session);
    var waiting := Next(Next(s, Draw), Register(id));
    var e := ReceiveForwards(waiting, session, id);
    SendHandsOver(Next(waiting, Receive(session, id)), e);
  }

  ghost predicate Waits(s: State, t: State, id: nat) {
    t.session == s.session && t.pending == s.pending + {id} && t.inHand == s.inHand && t.sent == s.sent
  }

  lemma RegisteredWaits(s: State, session: nat)
    requires Sound(s) && s.session == Some(session)
    ensures var waiting := Next(Next(s, Draw), Register(s.sequence + 1));
            Sound(waiting) && Waits(s, waiting, s.sequence + 1)
  {
    DrawKeepsSound(s);
    RegisterKeepsSound(Next(s, Draw), s.sequence + 1);
  }

  ghost predicate Sends(s: State, t: State, e: Envelope) {
    t.sent == s.sent + {e} && t.inHand == s.inHand - {e}
  }

  lemma SendHandsOver(s: State, e: Envelope)
    requires e in s.inHand
    ensures Sends(s, Next(s, Send(e)), e)
  {
  }

  // A caller that gave up in time never gets a message.
  lemma WithdrawnIsFinal(steps: seq<Step>, id: nat, later: seq<Step>)
    requires id in After(FRESH, steps).pending
    ensures var s := After(Next(After(FRESH, steps), Withdraw(id)), later);
            id in s.withdrawn && id !in s.pending && !Messaged(s, id)
  {
    RunKeepsSound(FRESH, steps);
    var s := Next(After(FRESH, steps), Withdraw(id));
    StepKeepsSound(After(FRESH, steps), Withdraw(id));
    StaysWithdrawn(s, later, id);
    RunKeepsSound(s, later);
  }

  lemma {:induction false} StaysWithdrawn(s: State, steps: seq<Step>, id: nat)
    requires id in s.withdrawn
    ensures id in After(s, steps).withdrawn
    decreases |steps|
  {
    if steps != [] {
      StaysWithdrawn(Next(s, steps[0]), steps[1..], id);
    }
  }

  // A compatible handshake on the current session is what ensure finds until
  // that session ends or another handshake on it is stored.
  lemma {:induction false} HandshakeLasts(s: State, session: nat, elevated: bool, steps: seq<Step>)
    requires Sound(s) && s.session == Some(session) && s.hello == Some(Greeting(session, true, elevated))
    requires forall i | 0 <= i < |steps| :: !Ends(steps[i], session) && !steps[i].Greet?
    ensures After(s, steps).session == s.session && After(s, steps).hello == s.hello
    decreases |steps|
  {
    if steps != [] {
      assert !Ends(steps[0], session) && !steps[0].Greet?;
      StepKeepsSound(s, steps[0]);
      HandshakeLasts(Next(s, steps[0]), session, elevated, steps[1..]);
    }
  }

  // From a client that is neither closed nor connected, connecting and shaking
  // hands make a session that ensure reuses.
  lemma ConnectedAndGreeted(steps: seq<Step>, elevated: bool)
    requires !After(FRESH, steps).closed && After(FRESH, steps).session.None?
    ensures var s := After(FRESH, steps);
            var session := s.launched;
            var t := Next(Next(s, Connect), Greet(session, true, elevated));
            && Sound(t) && t.session == Some(session) && t.hello == Some(Greeting(session, true, elevated))
            && session !in s.registered.Values
  {
    RunKeepsSound(FRESH, steps);
    RunKeepsRefusals(FRESH, steps);
    var s := After(FRESH, steps);
    StepKeepsSound(s, Connect);
    StepKeepsSound(Next(s, Connect), Greet(s.launched, true, elevated));
  }

  // ---- Close ----

  lemma {:induction false} ClosedForGood(s: State, steps: seq<Step>)
    requires Sound(s) && s.closed && !s.closing
    ensures After(s, steps).session.None? && After(s, steps).closed && !After(s, steps).closing
    decreases |steps|
  {
    if steps != [] {
      StepKeepsSound(s, steps[0]);
      ClosedForGood(Next(s, steps[0]), steps[1..]);
    }
  }

  // The Close that set the flag leaves no session, whatever runs between its
  // two regions and whatever runs after them.
  lemma CloseIsFinal(steps: seq<Step>, between: seq<Step>, later: seq<Step>)
    requires !After(FRESH, steps).closed
    requires forall i | 0 <= i < |between| :: !between[i].CloseKill?
    ensures var s := CloseKilled(After(Flagged(After(FRESH, steps)), between));
            s.closed && After(s, later).session.None?
  {
    var s := Flagged(After(FRESH, steps));
    RunKeepsSound(FRESH, steps);
    assert Sound(s) by {
      StepKeepsSound(After(FRESH, steps), CloseFlag);
    }
    CloseKillIsFinal(s, between, later);
  }

  lemma CloseKillIsFinal(s: State, between: seq<Step>, later: seq<Step>)
    requires Sound(s) && s.closed && s.closing
    requires forall i | 0 <= i < |between| :: !between[i].CloseKill?
    ensures CloseKilled(After(s, between)).closed && After(CloseKilled(After(s, between)), later).session.None?
  {
    StaysClosing(s, between);
    RunKeepsSound(s, between);
    var t := CloseKilled(After(s, between));
    assert Sound(t) by {
      StepKeepsSound(After(s, between), CloseKill);
    }
    ClosedForGood(t, later);
  }

  lemma {:induction false} StaysClosing(s: State, steps: seq<Step>)
    requires s.closed && s.closing
    requires forall i | 0 <= i < |steps| :: !steps[i].CloseKill?
    ensures After(s, steps).closed && After(s, steps).closing
    decreases |steps|
  {
    if steps != [] {
      assert !steps[0].CloseKill?;
      StaysClosing(Next(s, steps[0]), steps[1..]);
    }
  }

  // A Close that finds the flag set returns at once. It leaves no session if no
  // other Close is still between its two regions; while one is, a session that
  // was up when it set the flag can still be there.
  lemma EarlyCloseReturns(steps: seq<Step>)
    requires After(FRESH, steps).closed
    ensures Flagged(After(FRESH, steps)) == After(FRESH, steps)
    ensures !After(FRESH, steps).closing ==> After(FRESH, steps).session.None?
  {
    RunKeepsSound(FRESH, steps);
  }

  predicate Ends(step: Step, session: nat) {
    step.Kill? || step.CloseKill? || step == Fail(session)
  }

  // Exactly when a Close that overtakes the first one, anywhere between its two
  // regions, returns with the session still up: when nothing has ended it yet.
  lemma {:induction false} EarlyCloseExactly(s: State, session: nat, between: seq<Step>)
    requires Sound(s) && s.closed && s.closing && s.session == Some(session)
    ensures After(s, between).closed && Flagged(After(s, between)) == After(s, between)
    ensures After(s, between).session == Some(session) <==> forall i | 0 <= i < |between| :: !Ends(between[i], session)
    ensures After(s, between).session.Some? ==> After(s, between).session == Some(session)
    decreases |between|
  {
    if between != [] {
      var next := Next(s, between[0]);
      StepKeepsSound(s, between[0]);
      if Ends(between[0], session) {
        StaysDown(next, between[1..]);
      } else {
        EarlyCloseExactly(next, session, between[1..]);
        assert forall i | 0 < i < |between| :: between[i] == between[1..][i - 1];
      }
    }
  }

  // A closed client without a session never gets one again.
  lemma {:induction false} StaysDown(s: State, steps: seq<Step>)
    requires Sound(s) && s.closed && s.session.None?
    ensures After(s, steps).closed && After(s, steps).session.None?
    decreases |steps|
  {
    if steps != [] {
      StepKeepsSound(s, steps[0]);
      StaysDown(Next(s, steps[0]), steps[1..]);
    }
  }

  lemma OverlappingCloseLeavesASession(s: State)
    requires Sound(s) && !s.closed
    ensures Flagged(Flagged(s)).session.Some? <==> s.session.Some?
    ensures After(FRESH, [Connect, CloseFlag, CloseFlag]).session.Some?
  {
  }

  // ---- the client ----

  class Client {
    var session: Option<nat>
    var pending: set<nat>
    var hello: Option<Greeting>
    var closed: bool
    var sequence: nat
    var launched: nat
    var inHand: set<Envelope>
    ghost var closing: bool
    ghost var drawn: set<nat>
    ghost var sent: set<Envelope>
    ghost var registered: map<nat, nat>
    ghost var withdrawn: set<nat>
    var ticket: nat

    ghost function View(): State
      reads this
    {
      State(session, pending, hello, closed, closing, sequence, drawn, launched, ticket,
            inHand, sent, registered, withdrawn)
    }

    constructor ()
      ensures View() == FRESH && Sound(View())
    {
      session, pending, hello, closed, closing := None, {}, None, false, false;
      sequence, drawn, launched, ticket := 0, {}, 0, 0;
      inHand, sent, registered, withdrawn := {}, {}, map[], {};
    }

    method NegotiateSession() returns (connected: bool)
      requires Sound(View())
      modifies this
      ensures View() == Connected(old(View())) && Sound(View())
      ensures connected <==> session != old(session)
      ensures connected ==> old(pending) == {}
    {
      ConnectKeepsSound(View());
      launched := launched + 1;
      if closed {
        return false;
      }
      if session.Some? {
        return false;
      }
      session, pending, hello := Some(launched - 1), {}, None;
      return true;
    }

    // ensure reuses a session only after a compatible handshake on it.
    method Reusable(requireElevated: bool) returns (reuse: bool)
      requires Sound(View())
      ensures reuse <==>
                && session.Some? && hello.Some? && hello.value.session == session.value && hello.value.compatible
                && (requireElevated ==> hello.value.elevated)
    {
      var active := session.Some?;
      reuse := active && hello.Some? && hello.value.compatible && (!requireElevated || hello.value.elevated);
    }

    method StoreHello(greeting: Greeting)
      requires Sound(View())
      modifies this
      ensures View() == Greeted(old(View()), greeting) && Sound(View())
    {
      StepKeepsSound(View(), Greet(greeting.session, greeting.compatible, greeting.elevated));
      if greeting.compatible && session == Some(greeting.session) {
        hello := Some(greeting);
      }
    }

    method DrawId() returns (id: nat)
      requires Sound(View())
      modifies this
      ensures View() == Drawn(old(View())) && Sound(View())
      ensures id in drawn && id !in old(drawn) && id !in registered
    {
      StepKeepsSound(View(), Draw);
      sequence := sequence + 1;
      id := sequence;
      drawn := drawn + {id};
    }

    method RegisterPending(id: nat) returns (ok: bool)
      requires Sound(View()) && id in drawn
      modifies this
      ensures View() == RegisteredRequest(old(View()), id) && Sound(View())
      ensures ok <==> old(session).Some?
      ensures ok ==> id in pending && registered[id] == session.value
    {
      StepKeepsSound(View(), Register(id));
      drawn := drawn - {id};
      if session.None? {
        return false;
      }
      pending := pending + {id};
      registered := registered[id := session.value];
      return true;
    }

    method RemovePending(id: nat)
      requires Sound(View())
      modifies this
      ensures View() == Withdrawn(old(View()), id) && Sound(View())
    {
      StepKeepsSound(View(), Withdraw(id));
      if id in pending {
        withdrawn := withdrawn + {id};
      }
      pending := pending - {id};
    }

    // One message of readLoop; stop when the session is no longer current.
    method ReadMessage(reader: nat, id: nat) returns (stop: bool)
      requires Sound(View())
      modifies this
      ensures View() == Received(old(View()), reader, id) && Sound(View())
      ensures stop <==> old(session) != Some(reader)
    {
      ReceiveKeepsSound(View(), reader, id);
      ghost var received := Received(View(), reader, id);
      if session != Some(reader) {
        return true;
      }
      if id in pending {
        inHand := inHand + {Envelope(ticket, id, session, true)};
        ticket := ticket + 1;
      }
      pending := pending - {id};
      assert View() == received;
      return false;
    }

    method KillCurrent()
      requires Sound(View())
      modifies this
      ensures View() == Killed(old(View())) && Sound(View())
    {
      ghost var killed := Killed(View());
      KillKeepsSound(View());
      var ending := session;
      var waiting := pending;
      session, hello, pending := None, None, {};
      inHand := inHand + set id | id in waiting :: Envelope(ticket, id, ending, false);
      ticket := ticket + 1;
      assert View() == killed;
    }

    method FailSession(ending: nat)
      requires Sound(View())
      modifies this
      ensures View() == Failed(old(View()), ending) && Sound(View())
    {
      if session != Some(ending) {
        return;
      }
      KillCurrent();
    }

    // reply <- message; the slot is free.
    method SendReply(envelope: Envelope)
      requires Sound(View()) && envelope in inHand
      modifies this
      ensures View() == Delivered(old(View()), envelope) && Sound(View())
      ensures forall e | e in old(sent) :: e.id != envelope.id
    {
      SendKeepsSound(View(), envelope);
      ghost var delivered := Delivered(View(), envelope);
      SlotIsFree(View(), envelope);
      inHand := inHand - {envelope};
      sent := sent + {envelope};
      assert View() == delivered;
    }

    // The two regions of a Close that nothing interrupts.
    method Close()
      requires Sound(View()) && !closing
      modifies this
      ensures Sound(View()) && closed && session.None? && pending == {}
      ensures View() == CloseKilled(Flagged(old(View())))
    {
      StepKeepsSound(View(), CloseFlag);
      StepKeepsSound(Flagged(View()), CloseKill);
      if closed {
        return;
      }
      closed, closing := true, true;
      KillCurrent();
      closing := false;
    }
  }
}
