/**
  Concrete conversations: a healthy session answering one question, the
  same session when the remote call fails, and a session whose handle could
  not be created.
 */
module Scenarios {
  import opened Text
  import opened ChatWidget
  import opened Conversation

  /** `text` contains a character that is not whitespace, so the send guard
      does not treat it as blank. */
  lemma NotBlank(text: string, k: nat)
    requires k < |text| && !IsWs(text[k])
    ensures !Blank(text)
  {
    BlankIffAllWs(text);
  }

  /** A question typed into a healthy session and answered: the greeting,
      the question as typed and the reply verbatim; nothing left pending. */
  lemma AnsweredQuestion(question: string, answer: string)
    requires !Blank(question)
    ensures var s := Run(Start(Created), [Type(question), Send, Settle(Answered(answer))]);
      && s.ui.transcript == [Turn(Model, Greeting), Turn(User, question), Turn(Model, answer)]
      && !s.ui.pending && s.ui.input == ""
  {
    var typed := Step(Start(Created), Type(question));
    assert Run(Start(Created), [Type(question), Send, Settle(Answered(answer))])
        == Run(typed, [Send, Settle(Answered(answer))]);
    StartEstablishes(Created);
    StepPreserves(Start(Created), Type(question));
    Exchange(typed, Answered(answer));
  }

  /** The same question when the remote call rejects: the fixed failure text
      is shown, not the error, and the session is usable again. */
  lemma FailedQuestion(question: string, error: string)
    requires !Blank(question)
    ensures var s := Run(Start(Created), [Type(question), Send, Settle(Threw(error))]);
      && s.ui.transcript == [Turn(Model, Greeting), Turn(User, question), Turn(Model, Oops)]
      && !s.ui.pending && s.inFlight == 0
  {
    var typed := Step(Start(Created), Type(question));
    assert Run(Start(Created), [Type(question), Send, Settle(Threw(error))])
        == Run(typed, [Send, Settle(Threw(error))]);
    StartEstablishes(Created);
    StepPreserves(Start(Created), Type(question));
    Exchange(typed, Threw(error));
  }

  /** "What is VOXIA?" answered with "VOXIA turns...". */
  lemma WhatIsVoxia()
    ensures Run(Start(Created), [Type("What is VOXIA?"), Send, Settle(Answered("VOXIA turns..."))]).ui.transcript
         == [Turn(Model, Greeting), Turn(User, "What is VOXIA?"), Turn(Model, "VOXIA turns...")]
  {
    NotBlank("What is VOXIA?", 0);
    AnsweredQuestion("What is VOXIA?", "VOXIA turns...");
  }

  /** "pricing?" when the remote call fails. */
  lemma PricingFails(error: string)
    ensures Run(Start(Created), [Type("pricing?"), Send, Settle(Threw(error))]).ui.transcript
         == [Turn(Model, Greeting), Turn(User, "pricing?"), Turn(Model, Oops)]
  {
    NotBlank("pricing?", 0);
    FailedQuestion("pricing?", error);
  }

  /** With no handle, typing "hi" and sending leaves only the apology, and
      the send is a no-op: even the typed "hi" stays in the input. */
  lemma NoHandleHi()
    ensures Run(Start(Failed), [Type("hi"), Send]).ui.transcript == [Turn(Model, Apology)]
    ensures !Run(Start(Failed), [Type("hi"), Send]).ui.pending
    ensures Run(Start(Failed), [Type("hi"), Send]) == Run(Start(Failed), [Type("hi")])
  {
    DegradedIsFrozen([Type("hi"), Send]);
    var typed := Step(Start(Failed), Type("hi"));
    assert Run(Start(Failed), [Type("hi"), Send]) == Run(typed, [Send]);
    assert Run(Start(Failed), [Type("hi")]) == typed;
    assert Step(typed, Send) == typed;
  }
}
