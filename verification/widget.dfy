/**
  The state of the `VoxiaChatbot` component and its transitions, one pure
  function per handler. `handleSendMessage` is split at its single `await`
  into `Submit` (the synchronous guard and user-turn append) and `Resolve`
  (the continuation that runs once the remote call settles); the remote
  handle and its outcomes are not modelled beyond the `Setup` and `Reply`
  values passed in.
 */
module ChatWidget {
  import opened Text

  datatype Role = User | Model

  /** One chat bubble (the `Message` interface). */
  datatype Turn = Turn(role: Role, text: string)

  /** The component's React state: `messages`, `isLoading`, whether `chat`
      is non-null, `inputValue` and `isOpen`. */
  datatype State = State(
    transcript: seq<Turn>,
    pending: bool,
    hasChat: bool,
    input: string,
    open: bool)

  /** Whether constructing the remote conversation handle returned or threw. */
  datatype Setup = Created | Failed

  /** How the remote `sendMessage` settled: resolved with a reply text, or
      rejected with some error value. */
  datatype Reply = Answered(text: string) | Threw(error: string)

  /** The send guard's verdict, first failing condition first, in the order
      the guard tests them. */
  datatype Verdict = Accepted | RejectedBlank | RejectedBusy | RejectedNoSession

  const Greeting: string :=
    "Hello! I am the VOXIA AI Assistant. How can I help you learn about our platform today?"
  const Apology: string :=
    "Sorry, I am having trouble connecting right now. Please try again later."
  const Oops: string :=
    "Oops! Something went wrong. Please try again."

  /** The `useState` initial values, before the mount effect runs. */
  function Mounted(): State {
    State([], false, false, "", false)
  }

  /** The text of the model turn a settled remote call produces. */
  function Shown(reply: Reply): string {
    match reply
    case Answered(text) => text
    case Threw(_) => Oops
  }

  /** The mount effect: on success the handle is stored and the transcript is
      replaced by the greeting; on failure the handle is left as it was and
      the transcript is replaced by the apology. */
  function Initialize(s: State, setup: Setup): (r: State)
    ensures |r.transcript| == 1 && r.transcript[0].role == Model
    ensures setup.Created? ==> r.hasChat && r.transcript[0].text == Greeting
    ensures setup.Failed? ==> r.hasChat == s.hasChat && r.transcript[0].text == Apology
    ensures r.pending == s.pending && r.input == s.input && r.open == s.open
  {
    match setup
    case Created => s.(hasChat := true, transcript := [Turn(Model, Greeting)])
    case Failed => s.(transcript := [Turn(Model, Apology)])
  }

  /** The guard at the top of `handleSendMessage`. */
  function Check(s: State): (v: Verdict)
    ensures v == Accepted <==> !Blank(s.input) && !s.pending && s.hasChat
    ensures v == RejectedBlank <==> Blank(s.input)
    ensures v == RejectedBusy <==> !Blank(s.input) && s.pending
    ensures v == RejectedNoSession <==> !Blank(s.input) && !s.pending && !s.hasChat
  {
    if Blank(s.input) then RejectedBlank
    else if s.pending then RejectedBusy
    else if !s.hasChat then RejectedNoSession
    else Accepted
  }

  /** `handleSendMessage` up to the `await`: a rejected send changes nothing;
      an accepted one appends the untrimmed input as a user turn, clears the
      input and raises the pending flag. */
  function Submit(s: State): (r: State)
    ensures Check(s) != Accepted ==> r == s
    ensures Check(s) == Accepted ==>
      && r.transcript == s.transcript + [Turn(User, s.input)]
      && r.input == ""
      && r.pending
      && r.hasChat == s.hasChat && r.open == s.open
  {
    if Check(s) != Accepted then s
    else s.(transcript := s.transcript + [Turn(User, s.input)], input := "", pending := true)
  }

  /** `handleSendMessage` after the `await`, `catch` and `finally` included:
      exactly one model turn is appended, carrying the reply verbatim or the
      fixed failure text (never the error value), and the pending flag is
      cleared on both paths. */
  function Resolve(s: State, reply: Reply): (r: State)
    ensures |r.transcript| == |s.transcript| + 1 && r.transcript[..|s.transcript|] == s.transcript
    ensures r.transcript[|s.transcript|].role == Model
    ensures reply.Answered? ==> r.transcript[|s.transcript|].text == reply.text
    ensures reply.Threw? ==> r.transcript[|s.transcript|].text == Oops
    ensures !r.pending
    ensures r.hasChat == s.hasChat && r.input == s.input && r.open == s.open
  {
    s.(transcript := s.transcript + [Turn(Model, Shown(reply))], pending := false)
  }

  /** The input field's `onChange`. */
  function Edit(s: State, text: string): (r: State)
    ensures r.input == text
    ensures r.(input := s.input) == s
  {
    s.(input := text)
  }

  /** The launcher bubble's `onClick`: flips the panel, nothing else. */
  function Toggle(s: State): (r: State)
    ensures r.open != s.open
    ensures r.(open := s.open) == s
  {
    s.(open := !s.open)
  }

  /** The header's close button: closes the panel, nothing else. */
  function Close(s: State): (r: State)
    ensures !r.open
    ensures r.(open := s.open) == s
  {
    s.(open := false)
  }

  /** Toggling twice restores the state exactly. */
  lemma ToggleTwice(s: State)
    ensures Toggle(Toggle(s)) == s
  {
  }

  /** Closing is idempotent, and closing after a toggle is closing. */
  lemma CloseAbsorbs(s: State)
    ensures Close(Close(s)) == Close(s)
    ensures Close(Toggle(s)) == Close(s)
  {
  }

  /** A rejected send is a no-op however often it is repeated; in particular a
      blank input never reaches the transcript or the pending flag. */
  lemma RejectedSubmitIsIdle(s: State)
    requires Check(s) != Accepted
    ensures Submit(Submit(s)) == s
    ensures Check(Submit(s)) == Check(s)
  {
  }

  /** A whitespace-only input is always rejected, whatever the other state. */
  lemma WhitespaceInputRejected(s: State)
    requires AllWs(s.input)
    ensures Check(s) == RejectedBlank
    ensures Submit(s) == s
  {
    BlankIffAllWs(s.input);
  }

  /** An accepted send followed by its resolution adds exactly the user turn
      and the one model turn answering it, and leaves nothing pending. */
  lemma SubmitThenResolve(s: State, reply: Reply)
    requires Check(s) == Accepted
    ensures var r := Resolve(Submit(s), reply);
      && r.transcript == s.transcript + [Turn(User, s.input), Turn(Model, Shown(reply))]
      && !r.pending
      && r.input == ""
      && r.hasChat == s.hasChat && r.open == s.open
  {
  }
}
