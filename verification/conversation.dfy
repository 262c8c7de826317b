/**
  Runs of the widget: the mount effect once, then any sequence of UI events
  and remote settlements, executed one at a time. The remote side is tracked
  by `inFlight`, the number of `sendMessage` calls dispatched and not yet
  settled; a settlement is only delivered while one is outstanding.
 */
module Conversation {
  import opened Text
  import opened ChatWidget

  /** The component state together with the outstanding remote calls. */
  datatype Session = Session(ui: State, inFlight: nat)

  /** What can happen after mount: typing, pressing send, the remote call
      settling, the launcher toggle and the close button. */
  datatype Event =
    | Type(text: string)
    | Send
    | Settle(reply: Reply)
    | ToggleOpen
    | CloseOpen

  /** The component after mounting and running its mount effect. */
  function Start(setup: Setup): (s: Session)
    ensures s.inFlight == 0 && !s.ui.pending && !s.ui.open && s.ui.input == ""
    ensures s.ui.hasChat <==> setup.Created?
    ensures s.ui.transcript == [Turn(Model, if setup.Created? then Greeting else Apology)]
  {
    Session(Initialize(Mounted(), setup), 0)
  }

  /** One event. A settlement with nothing outstanding cannot occur and is
      treated as no event at all. */
  function Step(s: Session, e: Event): (r: Session)
    ensures s.ui.transcript <= r.ui.transcript
    ensures |r.ui.transcript| <= |s.ui.transcript| + 1
    ensures r.ui.hasChat == s.ui.hasChat
  {
    match e
    case Type(text) => s.(ui := Edit(s.ui, text))
    case Send =>
      Session(Submit(s.ui), if Check(s.ui) == Accepted then s.inFlight + 1 else s.inFlight)
    case Settle(reply) =>
      if s.inFlight == 0 then s else Session(Resolve(s.ui, reply), s.inFlight - 1)
    case ToggleOpen => s.(ui := Toggle(s.ui))
    case CloseOpen => s.(ui := Close(s.ui))
  }

  /** A whole trace of events, in order. */
  function Run(s: Session, trace: seq<Event>): Session
    decreases |trace|
  {
    if trace == [] then s else Run(Step(s, trace[0]), trace[1..])
  }

  /** After the seed turn, user and model turns strictly alternate. */
  ghost predicate Alternates(t: seq<Turn>) {
    forall i :: 1 <= i < |t| ==> t[i].role == (if i % 2 == 1 then User else Model)
  }

  /** Every user turn holds a non-whitespace character. */
  ghost predicate UserTurnsNonBlank(t: seq<Turn>) {
    forall i :: 0 <= i < |t| && t[i].role == User ==> !AllWs(t[i].text)
  }

  /** What holds of every reachable session: at most one remote call is
      outstanding and the pending flag says exactly whether there is one;
      the transcript is the seed turn followed by user/model pairs, the last
      user turn unanswered exactly while pending; a session whose handle
      was never created still shows only the apology. */
  ghost predicate Inv(s: Session) {
    var t := s.ui.transcript;
    && s.inFlight <= 1
    && (s.ui.pending <==> s.inFlight == 1)
    && |t| >= 1
    && t[0] == Turn(Model, if s.ui.hasChat then Greeting else Apology)
    && Alternates(t)
    && (s.ui.pending <==> |t| % 2 == 0)
    && UserTurnsNonBlank(t)
    && (!s.ui.hasChat ==> |t| == 1)
  }

  /** Every session starts out in the invariant. */
  lemma StartEstablishes(setup: Setup)
    ensures Inv(Start(setup))
  {
  }

  /** Appending the turn whose role is due keeps the alternation. */
  lemma AppendAlternates(t: seq<Turn>, x: Turn)
    requires Alternates(t)
    requires x.role == (if |t| % 2 == 1 then User else Model)
    ensures Alternates(t + [x])
  {
    var u := t + [x];
    forall i | 1 <= i < |u|
      ensures u[i].role == (if i % 2 == 1 then User else Model)
    {
      if i < |t| {
        assert u[i] == t[i];
      }
    }
  }

  /** Appending a model turn, or a non-blank user turn, keeps user turns
      non-blank. */
  lemma AppendNonBlank(t: seq<Turn>, x: Turn)
    requires UserTurnsNonBlank(t)
    requires x.role == User ==> !AllWs(x.text)
    ensures UserTurnsNonBlank(t + [x])
  {
    var u := t + [x];
    forall i | 0 <= i < |u| && u[i].role == User
      ensures !AllWs(u[i].text)
    {
      if i < |t| {
        assert u[i] == t[i];
      }
    }
  }

  /** Pressing send keeps the invariant. */
  lemma SendPreserves(s: Session)
    requires Inv(s)
    ensures Inv(Step(s, Send))
  {
    var t := s.ui.transcript;
    if Check(s.ui) == Accepted {
      var x := Turn(User, s.ui.input);
      BlankIffAllWs(s.ui.input);
      AppendAlternates(t, x);
      AppendNonBlank(t, x);
      assert Step(s, Send).ui.transcript == t + [x];
    } else {
      assert Step(s, Send) == s;
    }
  }

  /** A settlement keeps the invariant. */
  lemma SettlePreserves(s: Session, reply: Reply)
    requires Inv(s)
    ensures Inv(Step(s, Settle(reply)))
  {
    var t := s.ui.transcript;
    if s.inFlight > 0 {
      var x := Turn(Model, Shown(reply));
      AppendAlternates(t, x);
      AppendNonBlank(t, x);
      assert Step(s, Settle(reply)).ui.transcript == t + [x];
    }
  }

  /** Every event keeps the invariant. */
  lemma StepPreserves(s: Session, e: Event)
    requires Inv(s)
    ensures Inv(Step(s, e))
  {
    match e
    case Send => SendPreserves(s);
    case Settle(reply) => SettlePreserves(s, reply);
    case _ =>
  }

  /** Every session reachable from a valid one is valid. */
  lemma {:induction false} RunPreserves(s: Session, trace: seq<Event>)
    requires Inv(s)
    ensures Inv(Run(s, trace))
    decreases |trace|
  {
    if trace != [] {
      StepPreserves(s, trace[0]);
      RunPreserves(Step(s, trace[0]), trace[1..]);
    }
  }

  /** Every reachable session satisfies the invariant. */
  lemma Reachable(setup: Setup, trace: seq<Event>)
    ensures Inv(Run(Start(setup), trace))
  {
    StartEstablishes(setup);
    RunPreserves(Start(setup), trace);
  }

  /** The transcript is append-only: no trace removes, reorders or rewrites
      a turn, and the handle never changes after mount. */
  lemma {:induction false} RunAppendOnly(s: Session, trace: seq<Event>)
    ensures s.ui.transcript <= Run(s, trace).ui.transcript
    ensures Run(s, trace).ui.hasChat == s.ui.hasChat
    decreases |trace|
  {
    if trace != [] {
      RunAppendOnly(Step(s, trace[0]), trace[1..]);
    }
  }

  /** A session whose handle could not be created is frozen on the apology:
      no trace adds a turn or raises the pending flag. */
  lemma DegradedIsFrozen(trace: seq<Event>)
    ensures Run(Start(Failed), trace).ui.transcript == [Turn(Model, Apology)]
    ensures !Run(Start(Failed), trace).ui.pending
    ensures !Run(Start(Failed), trace).ui.hasChat
  {
    Reachable(Failed, trace);
    RunAppendOnly(Start(Failed), trace);
  }

  /** Mutual exclusion: while a call is outstanding, pressing send changes
      nothing, neither the component nor the remote side. */
  lemma SecondSendRejected(s: Session)
    requires Inv(s) && s.inFlight > 0
    ensures Step(s, Send) == s
  {
  }

  /** The flag is never stuck: once the outstanding call settles, nothing is
      pending and nothing is outstanding. */
  lemma SettleClearsPending(s: Session, reply: Reply)
    requires Inv(s)
    ensures !Step(s, Settle(reply)).ui.pending
    ensures Step(s, Settle(reply)).inFlight == 0
  {
  }

  /** One accepted exchange from an idle session: the user turn (the raw
      input) and then exactly one model turn (the reply text, or the fixed
      failure text) are appended, the input is cleared and the session is
      idle again. */
  lemma Exchange(s: Session, reply: Reply)
    requires Inv(s) && !s.ui.pending && s.ui.hasChat && !Blank(s.ui.input)
    ensures var r := Run(s, [Send, Settle(reply)]);
      && r.ui.transcript == s.ui.transcript + [Turn(User, s.ui.input), Turn(Model, Shown(reply))]
      && !r.ui.pending && r.inFlight == 0 && r.ui.input == ""
  {
    var mid := Step(s, Send);
    assert Run(s, [Send, Settle(reply)]) == Run(mid, [Settle(reply)]);
    assert Run(mid, [Settle(reply)]) == Run(Step(mid, Settle(reply)), []);
  }

  /** Number of turns in `t` with role `role`. */
  function Count(t: seq<Turn>, role: Role): (n: nat)
    ensures n <= |t|
  {
    if t == [] then 0
    else Count(t[..|t| - 1], role) + (if t[|t| - 1].role == role then 1 else 0)
  }

  /** In a seed-then-alternating transcript, model turns outnumber user turns
      by one when its length is odd and match them when it is even. */
  lemma {:induction false} AlternatingCounts(t: seq<Turn>)
    requires |t| >= 1 && t[0].role == Model && Alternates(t)
    ensures Count(t, Model) == Count(t, User) + (if |t| % 2 == 1 then 1 else 0)
  {
    if |t| > 1 {
      var p := t[..|t| - 1];
      assert Alternates(p) by {
        forall i | 1 <= i < |p|
          ensures p[i].role == (if i % 2 == 1 then User else Model)
        {
          assert p[i] == t[i];
        }
      }
      AlternatingCounts(p);
    }
  }

  /** Each accepted user turn gets exactly one model turn: besides the seed,
      every model turn answers a user turn, every user turn but the one in
      flight (if any) is directly followed by its answer. */
  lemma EveryUserTurnAnswered(s: Session)
    requires Inv(s)
    ensures Count(s.ui.transcript, Model) ==
            Count(s.ui.transcript, User) + (if s.ui.pending then 0 else 1)
    ensures forall i :: 0 <= i < |s.ui.transcript| - 1 && s.ui.transcript[i].role == User ==>
              s.ui.transcript[i + 1].role == Model
  {
    var t := s.ui.transcript;
    AlternatingCounts(t);
    forall i | 0 <= i < |t| - 1 && t[i].role == User
      ensures t[i + 1].role == Model
    {
      assert i >= 1 && i % 2 == 1;
      assert (i + 1) % 2 == 0;
    }
  }

  /** Repeated send presses with a blank input never change the session. */
  lemma {:induction false} BlankSendsAreIdle(s: Session, n: nat)
    requires Blank(s.ui.input)
    ensures Run(s, seq(n, _ => Send)) == s
    decreases n
  {
    if n > 0 {
      var trace := seq(n, _ => Send);
      assert trace[0] == Send && trace[1..] == seq(n - 1, _ => Send);
      assert Step(s, Send) == s;
      BlankSendsAreIdle(s, n - 1);
    }
  }

  /** Toggling the panel twice restores the session exactly. */
  lemma ToggleTwiceRestores(s: Session)
    ensures Run(s, [ToggleOpen, ToggleOpen]) == s
  {
    assert Run(s, [ToggleOpen, ToggleOpen]) == Run(Step(s, ToggleOpen), [ToggleOpen]);
    assert Run(Step(s, ToggleOpen), [ToggleOpen]) == Step(Step(s, ToggleOpen), ToggleOpen);
  }
}
