# VOXIA chat widget — conversation state machine

A Dafny model of the `VoxiaChatbot` component of the VOXIA landing page
(`index.tsx`). It covers the component's conversation state and the five
things that change it:

- the mount effect that creates the remote chat handle and seeds the
  transcript with a greeting, or with an apology when creation throws;
- the send guard, which ignores a blank input, a send while a reply is
  pending, or a send with no handle;
- the synchronous half of `handleSendMessage`, which appends the user turn,
  clears the input and raises the pending flag;
- the half after the `await`, which appends exactly one model turn (the
  reply verbatim, or a fixed failure text) and clears the pending flag in
  the `finally`;
- the open/close handlers of the panel, plus the input field's `onChange`.

Files:

- `text.dfy` (module `Text`): JavaScript `String.prototype.trim` over the
  WhiteSpace and LineTerminator code points of ECMA-262 (sections 12.2 and
  12.3). `Blank` is the guard's `!inputValue.trim()`.
- `widget.dfy` (module `ChatWidget`): the state record (`transcript`,
  `pending`, `hasChat`, `input`, `open`) and one pure function per handler.
- `conversation.dfy` (module `Conversation`): sessions, meaning the component
  state plus the number of remote calls in flight. Also event traces and
  the invariant every reachable session satisfies.
- `scenarios.dfy` (module `Scenarios`): concrete conversations.

`handleSendMessage` is split at its single `await` into `Submit` and
`Resolve`. Runs are sequences of `Event`s executed one at a time: typing,
send, a remote settlement, toggle, close. The remote service appears only
as the `Setup` (created or threw) and `Reply` (answered with a text, or
threw an error) values passed in. A settlement can be delivered only while
a call is in flight; any other settlement is treated as no event.

The code appends the reply text verbatim, so a model turn may be empty;
only user turns are proved non-blank.

## Model

| member | source | states |
|---|---|---|
| Text.LeadingWs | index.tsx:47 | the count covers exactly the whitespace run at the start: every counted character is whitespace, and the next one, if any, is not |
| Text.TrailingWs | index.tsx:47 | the count covers exactly the whitespace run at the end: every counted character is whitespace, and the one before it, if any, is not |
| Text.Trim | index.tsx:47 | `trim()` returns a middle slice of the input; everything cut from either end is whitespace, and a non-empty result starts and ends with a non-whitespace character |
| Text.BlankIffAllWs | index.tsx:47 | the guard's `!inputValue.trim()` holds exactly when every character of the input is whitespace |
| ChatWidget.Initialize | index.tsx:18-37 | the transcript becomes exactly one model turn: the greeting when the handle is created (the handle is then set), the apology when creation throws (the handle is left as it was, unset after mount); pending, input and open are untouched |
| ChatWidget.Check | index.tsx:47 | a send is accepted if and only if the input is not blank, nothing is pending and the handle exists; blank is reported first, then busy, then no handle, in the order of the guard's `||` |
| ChatWidget.Submit | index.tsx:47-52 | a rejected send returns the state unchanged; an accepted one appends one user turn holding the untrimmed input, empties the input and sets pending, and keeps the handle and panel |
| ChatWidget.Resolve | index.tsx:54-64 | exactly one model turn is appended after the old transcript: the reply text verbatim on success, the fixed "Oops! ..." text on failure whatever the error; pending is false afterwards on both paths |
| ChatWidget.Edit | index.tsx:114 | typing replaces the input and changes nothing else |
| ChatWidget.Toggle | index.tsx:69 | the launcher flips the panel and changes nothing else |
| ChatWidget.Close | index.tsx:90 | the close button closes the panel and changes nothing else |
| ChatWidget.ToggleTwice | index.tsx:69 | toggling twice restores the state exactly |
| ChatWidget.CloseAbsorbs | index.tsx:90 | closing is idempotent, and closing after a toggle is the same as closing |
| ChatWidget.RejectedSubmitIsIdle | index.tsx:47 | a rejected send stays rejected and repeating it still changes nothing |
| ChatWidget.WhitespaceInputRejected | index.tsx:47 | a whitespace-only input is rejected as blank in every state, with no change |
| ChatWidget.SubmitThenResolve | index.tsx:45-65 | an accepted send followed by its resolution adds exactly the user turn and one model turn answering it, clears the input and leaves nothing pending |
| Conversation.Start | index.tsx:11-37 | after mount the handle is set exactly when creation succeeded, the transcript is the single greeting or apology turn, and nothing is pending, in flight, typed or open |
| Conversation.Step | index.tsx:45-90 | no event removes or rewrites a turn: the old transcript is a prefix of the new one, at most one turn is added, and the handle never changes |
| Conversation.StartEstablishes | index.tsx:18-37 | every freshly mounted session satisfies the conversation invariant |
| Conversation.SendPreserves | index.tsx:47-52 | pressing send keeps the invariant: the accepted user turn is non-blank and lands where a user turn is due, and the flag matches the call now in flight |
| Conversation.SettlePreserves | index.tsx:54-64 | a settlement keeps the invariant: the model turn lands where it is due and the flag drops as the call completes |
| Conversation.StepPreserves | index.tsx:45-90 | every event keeps the invariant |
| Conversation.RunPreserves | index.tsx:45-90 | every trace from a valid session ends in a valid session |
| Conversation.Reachable | index.tsx:18-90 | every session reachable from mount has at most one call in flight, is pending exactly while one is in flight, and shows the seed turn followed by alternating user/model turns |
| Conversation.RunAppendOnly | index.tsx:50-61 | over any trace the old transcript stays a prefix of the new one and the handle is unchanged |
| Conversation.DegradedIsFrozen | index.tsx:31-47 | after failed creation, no trace adds a turn to the single apology or raises the pending flag |
| Conversation.SecondSendRejected | index.tsx:47 | while a call is in flight, a second send changes neither the component nor the remote side |
| Conversation.SettleClearsPending | index.tsx:62-64 | in any valid session, after a settlement nothing is pending and nothing is in flight |
| Conversation.Exchange | index.tsx:45-65 | from an idle session with a handle and a non-blank input, send then settle appends the raw input as a user turn and exactly one model turn, and leaves the session idle with an empty input |
| Conversation.AlternatingCounts | index.tsx:49-61 | in a transcript of a model seed followed by alternating turns, model turns exceed user turns by one at odd length and equal them at even length |
| Conversation.EveryUserTurnAnswered | index.tsx:49-61 | in every valid session, model turns equal user turns plus one unless a reply is pending; every user turn except the last is directly followed by a model turn |
| Conversation.BlankSendsAreIdle | index.tsx:47 | any number of send presses with a blank input leaves the session unchanged |
| Conversation.ToggleTwiceRestores | index.tsx:69 | two launcher clicks restore the whole session, transcript and pending flag included |
| Scenarios.AnsweredQuestion | index.tsx:54-57 | a healthy session asked a non-blank question shows the greeting, the question as typed and the reply verbatim, with nothing pending |
| Scenarios.FailedQuestion | index.tsx:58-64 | when the remote call rejects, the fixed failure text is shown instead of the error, and nothing is pending or in flight |
| Scenarios.WhatIsVoxia | index.tsx:45-57 | "What is VOXIA?" answered with "VOXIA turns..." yields greeting, question, answer |
| Scenarios.PricingFails | index.tsx:58-61 | "pricing?" with a failing remote call yields greeting, question, failure text |
| Scenarios.NoHandleHi | index.tsx:31-47 | with no handle, typing "hi" and sending leaves only the apology and nothing pending, and the send changes nothing, not even the typed "hi" |

## Left out

- The remote SDK calls (`new GoogleGenAI`, `ai.chats.create`, `chat.sendMessage`) are foreign network code. Only their outcomes are modelled, as `Setup` and `Reply` parameters. The model name, system instruction and API key are not modelled.
- A reply whose `text` is `undefined` is not modelled: `Reply.Answered` always carries a string.
- The scroll-to-bottom effect, all JSX/SVG markup and the `disabled` attributes on the input and send button are presentation only. The model relies on the guard alone, so it also admits typing while a reply is pending.
- Mounting into `chat-widget-container` and the missing-container branch are DOM start-up plumbing with logging only.
- `console.error` diagnostics are logging only.
- React scheduling, batched functional updates, stale closures and unmount races are not modelled. Events run one at a time, and each handler sees the state left by the previous event.
- Whitespace is decided per Dafny `char` (a Unicode scalar value), while JavaScript strings are UTF-16 code units. Every whitespace code point lies in the Basic Multilingual Plane, so the two agree.
