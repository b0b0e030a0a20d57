# QuestionInputModern composer, modelled in Dafny

This project models the chat message composer `QuestionInputModern`. The
composer holds two pieces of state: the draft text (`question`) and one
optional encoded image (`base64Image`). Four handlers act on them:

- the textarea's `onChange` replaces the draft;
- `convertToBase64` fills the image slot when the external resize utility succeeds;
- the remove-image button empties the slot;
- `sendQuestion` is the submission gate. It refuses a disabled composer or a
  blank draft. Otherwise it hands one payload to the host's `onSend`, with the
  conversation id when that id is truthy, then clears the image, and clears the
  draft when `clearOnSend` is set.

`onEnterPress` runs the same gate for Enter without Shift and outside an IME
composition. `sendQuestionDisabled` computes the gate's refusal condition; the
component computes it but nothing in the file reads it. The textarea's height
follows `min(scrollHeight, 200)`.

In this file three handlers are wired to elements: `onChange` and
`onEnterPress` on the textarea, and the remove button's `onClick` (line 105),
which renders only when `base64Image` is truthy. `sendQuestion` is called only
from `onEnterPress`. `convertToBase64` is reached only through
`handleImageUpload`, and no element uses `handleImageUpload`. So as the file
stands, the image slot stays empty, the preview and the remove button never
render, and every payload is the plain draft. `WithoutUploadsOnlyPlainText`
proves this. The model still covers uploads and explicit sends as events, so
that the gate and payload rules are stated for every state the handlers can be
given.

Files:

- `Wrappers.dfy`: the `Option` type used for nullable and optional values.
- `JsString.dfy`: `String.prototype.trim` over the exact ECMAScript set of white
  space and line terminators (Unicode category Zs as of Unicode 15), and the
  fact that a trimmed draft is empty exactly when the draft is blank.
- `ComposerSpec.dfy`: the composer as a pure state machine. `Snapshot` is the
  draft, the slot and the log of `onSend` calls. `Props` holds `disabled`,
  `clearOnSend` and `conversationId`. `Step` handles one `Event` under the
  props of the current render, and `Run` handles a sequence of `Input`s, each an
  event paired with the props it is handled under, so the host may re-render
  with new props between any two events (`Composer.Rerender`). Lemmas state the gate, payload, routing and
  clean-up rules, properties of whole runs, and three worked examples.
- `QuestionInputModern.dfy`: the component as a class `Composer`. Its fields are
  the two state variables, the current props, the textarea height and a ghost
  `sent` log standing in for `onSend`. Each handler is a method whose new state
  is proved equal to `ComposerSpec.Step` applied to the old one.
  `TypeAndEnter` is a client session that uses only these contracts.

JavaScript truthiness is written out. An empty `base64Image` counts as no image,
so the payload is the plain string. An empty `conversationId` counts as no id,
so `onSend` gets the payload alone. An undefined `clearOnSend` reads as `false`.

Three details of the code that the model keeps:

- The image part is `{type: 'image_url', image_url: {url}}` (`ImageUrlPart`).
- An empty `conversationId` is falsy and is not passed to `onSend`.
- A resize that yields an empty string does fill the slot, but that value is
  falsy, so the next send carries plain text.

React's `setState` calls are batched. The handler reads `question` and
`base64Image` before it calls any setter, so applying the updates in order, as
the methods do, gives the same result.

## Model

| member | source | states |
|---|---|---|
| JsString.TrimStart | frontend/src/components/QuestionInputModern/QuestionInputModern.tsx:53 | leading white space removed: the result is a suffix of the draft, starts with a non-space, and every dropped character is white space |
| JsString.TrimEnd | frontend/src/components/QuestionInputModern/QuestionInputModern.tsx:53 | trailing white space removed: the result is a prefix, ends with a non-space, and every dropped character is white space |
| JsString.Trim | frontend/src/components/QuestionInputModern/QuestionInputModern.tsx:53 | `question.trim()` is the draft with only its leading and trailing white space removed: a slice of the draft with blank pieces before and after it, and no white space at either end |
| JsString.TrimEmptyIffBlank | frontend/src/components/QuestionInputModern/QuestionInputModern.tsx:53 | `!question.trim()` holds exactly when every character of the draft is white space |
| JsString.IsSpaceOnAscii | frontend/src/components/QuestionInputModern/QuestionInputModern.tsx:53 | the white space `trim` strips (`IsSpace`, the ECMAScript WhiteSpace and LineTerminator code points) includes tab, the line breaks, vertical tab, form feed and space, and no visible ASCII character |
| ComposerSpec.TextareaHeight | frontend/src/components/QuestionInputModern/QuestionInputModern.tsx:25 | the height never exceeds 200, equals `scrollHeight` when that is at most 200, and is 200 otherwise |
| ComposerSpec.SendDisabled | frontend/src/components/QuestionInputModern/QuestionInputModern.tsx:81 | the refusal condition `disabled \|\| !question.trim()` holds exactly when the composer is disabled or the draft is blank |
| ComposerSpec.BuildPayload | frontend/src/components/QuestionInputModern/QuestionInputModern.tsx:57-59 | the payload has one of the two emitted shapes and carries the untrimmed draft; it carries the image, as a second part, exactly when the image is truthy |
| ComposerSpec.BuildPayloadFromParts | frontend/src/components/QuestionInputModern/QuestionInputModern.tsx:57-59 | every payload of the two emitted shapes is rebuilt from the text and image it carries, so the construction loses nothing |
| ComposerSpec.RouteId | frontend/src/components/QuestionInputModern/QuestionInputModern.tsx:61-67 | `onSend` gets an id exactly when `conversationId` is truthy, and that id is the conversation id |
| ComposerSpec.SendQuestion | frontend/src/components/QuestionInputModern/QuestionInputModern.tsx:52-72 | a disabled or blank send leaves the state unchanged; otherwise exactly one call is appended, it is one the composer can make and carries the untrimmed draft, the image is cleared, and the draft is `""` exactly when `clearOnSend` is set |
| ComposerSpec.IsSubmitKey | frontend/src/components/QuestionInputModern/QuestionInputModern.tsx:75 | only the Enter key can fire, and never with Shift held or during an IME composition |
| ComposerSpec.Step | frontend/src/components/QuestionInputModern/QuestionInputModern.tsx:52-105 | one handler run extends the `onSend` log by at most one call, only on a send or key event, keeps earlier calls, and adds only calls the composer can make |
| ComposerSpec.RefusedSendIsNoOp | frontend/src/components/QuestionInputModern/QuestionInputModern.tsx:53-55 | when disabled or the draft is blank, a send changes neither the draft, nor the image, nor the `onSend` log |
| ComposerSpec.SendsIffNotBlank | frontend/src/components/QuestionInputModern/QuestionInputModern.tsx:52-67 | while enabled, a send appends exactly one `onSend` call when the draft is not blank, and none when it is blank |
| ComposerSpec.AffordanceMatchesGate | frontend/src/components/QuestionInputModern/QuestionInputModern.tsx:81 | `sendQuestionDisabled` holds exactly when `sendQuestion` would make no call |
| ComposerSpec.AttachmentAloneNeverSends | frontend/src/components/QuestionInputModern/QuestionInputModern.tsx:53-55 | an attached image with a blank draft never produces an `onSend` call |
| ComposerSpec.SuccessfulSend | frontend/src/components/QuestionInputModern/QuestionInputModern.tsx:57-71 | a successful send makes one call; its payload is `[text, image_url]` of the untrimmed draft and the image when the image is truthy, else the plain draft; the id is passed exactly when truthy; the image is then cleared, and the draft is `""` exactly when `clearOnSend` is set |
| ComposerSpec.EnterIsSubmit | frontend/src/components/QuestionInputModern/QuestionInputModern.tsx:74-79 | Enter without Shift and outside composition does exactly what an explicit send does |
| ComposerSpec.OtherKeysChangeNothing | frontend/src/components/QuestionInputModern/QuestionInputModern.tsx:75 | any other key, Shift+Enter and Enter during composition included, leaves all state untouched |
| ComposerSpec.RemoveImageClearsOnlySlot | frontend/src/components/QuestionInputModern/QuestionInputModern.tsx:105 | removing the image empties the slot, keeps the draft and the log, and a second removal changes nothing |
| ComposerSpec.EditReplacesDraft | frontend/src/components/QuestionInputModern/QuestionInputModern.tsx:91 | a text change replaces the draft verbatim and keeps the image and the log |
| ComposerSpec.ImageResolvedEffect | frontend/src/components/QuestionInputModern/QuestionInputModern.tsx:43-50 | a successful resize overwrites the slot with its result; a failed one leaves the slot unchanged; neither touches the draft |
| ComposerSpec.RunSendsAtMostTriggers | frontend/src/components/QuestionInputModern/QuestionInputModern.tsx:52-79 | over any run, with the host free to change the props between events, the `onSend` log only grows, by at most one call per send or key event |
| ComposerSpec.DisabledNeverSends | frontend/src/components/QuestionInputModern/QuestionInputModern.tsx:53 | while every render has `disabled` set, no sequence of events reaches `onSend`, whatever else the props change to between events |
| ComposerSpec.RunKeepsCallsValid | frontend/src/components/QuestionInputModern/QuestionInputModern.tsx:52-67 | every `onSend` call ever made, across any re-renders with new props, carries a non-blank draft in one of the two shapes, with an id only if that id is non-empty |
| ComposerSpec.ClearOnSendBlocksResend | frontend/src/components/QuestionInputModern/QuestionInputModern.tsx:69-71 | with `clearOnSend`, a send straight after a successful one is refused whatever props the second render has, leaving one call, an empty draft and no image |
| ComposerSpec.ResendDropsImage | frontend/src/components/QuestionInputModern/QuestionInputModern.tsx:57-71 | without `clearOnSend`, sending twice (both renders enabled) makes two calls, and the second is the plain draft because the image was cleared |
| ComposerSpec.WithoutUploadsOnlyPlainText | frontend/src/components/QuestionInputModern/QuestionInputModern.tsx:36-50 | while no upload settles, across any re-renders, the image slot stays empty and every `onSend` call carries the plain draft; no element uses `handleImageUpload`, so this covers every run the file can produce |
| ComposerSpec.BlankDraftExample | frontend/src/components/QuestionInputModern/QuestionInputModern.tsx:53-55 | typing `"   "` and sending makes no call |
| ComposerSpec.HelloExample | frontend/src/components/QuestionInputModern/QuestionInputModern.tsx:52-72 | `"Hello"` with `clearOnSend` and no conversation: `onSend("Hello")` alone, then an empty draft |
| ComposerSpec.LookExample | frontend/src/components/QuestionInputModern/QuestionInputModern.tsx:57-67 | `"Look"` with an image and conversation `"conv-1"`: `onSend([text "Look", image_url], "conv-1")`, then no image and the draft kept |
| QuestionInputModern.Composer.constructor | frontend/src/components/QuestionInputModern/QuestionInputModern.tsx:16-31 | on mount the draft is empty, there is no image, nothing is sent, and the height is the resize of the measured content |
| QuestionInputModern.Composer.Rerender | frontend/src/components/QuestionInputModern/QuestionInputModern.tsx:16 | new props from the host leave the draft, the image and the height as they were |
| QuestionInputModern.Composer.AutoResize | frontend/src/components/QuestionInputModern/QuestionInputModern.tsx:21-27 | the height becomes `min(scrollHeight, 200)` and so never exceeds 200 |
| QuestionInputModern.Composer.OnChange | frontend/src/components/QuestionInputModern/QuestionInputModern.tsx:91 | the draft becomes the typed value and nothing else changes |
| QuestionInputModern.Composer.RemoveImage | frontend/src/components/QuestionInputModern/QuestionInputModern.tsx:105 | the slot becomes empty and nothing else changes |
| QuestionInputModern.Composer.ConvertToBase64 | frontend/src/components/QuestionInputModern/QuestionInputModern.tsx:43-50 | a successful resize fills the slot with its result; a failed one leaves every field as it was |
| QuestionInputModern.Composer.SendQuestionDisabled | frontend/src/components/QuestionInputModern/QuestionInputModern.tsx:81 | it holds exactly when disabled or the draft is blank, which is exactly when a send would make no call |
| QuestionInputModern.Composer.SendQuestion | frontend/src/components/QuestionInputModern/QuestionInputModern.tsx:52-72 | a refused send changes nothing; otherwise one call is appended to the log, the slot is emptied, the draft is cleared exactly when `clearOnSend` is set, and the result is `ComposerSpec.SendQuestion` of the old state |
| QuestionInputModern.Composer.OnEnterPress | frontend/src/components/QuestionInputModern/QuestionInputModern.tsx:74-79 | `preventDefault` fires exactly for Enter without Shift outside composition; then a send happens, and any other key changes nothing |

## Left out

- The resize utility `resizeImage` is external and asynchronous. Only its outcome is modelled: an encoded string, or a rejection (`ResizeOutcome`).
- Two uploads can overlap, and the last one to settle writes the slot. This race is not modelled beyond the order in which `ImageResolved` events arrive.
- `handleImageUpload`'s extraction of `files?.[0]` is DOM plumbing and is not modelled.
- The textarea ref, the `useEffect` scheduling and the `style.height` strings are DOM plumbing. The measured `scrollHeight` is a parameter of `AutoResize`, and the host is assumed to call it after each draft change. The case where the ref is still null before mount is not modelled.
- `AppStateContext` and `OYD_ENABLED` are read but never used by the logic, so they are not modelled.
- The `console.error` diagnostic on a failed resize is output only; the model keeps the state unchanged and logs nothing.
- The textarea's `disabled` attribute makes the browser drop edits and key events while disabled. `Step` still accepts `Edit` and `KeyDown` then: edits change the draft, and the gate refuses every send.
- The JSX rendering, the placeholder text and the action buttons are presentation only.
- `onSend` is the host's callback. Its calls are recorded in the ghost log `sent`; what the host does with them is not modelled.
- `onSend` is assumed to return. If it throws, the source skips `setBase64Image(null)` and `setQuestion('')`, so the composer keeps its image and draft and the error propagates; the model does not cover that path.
- `ImageResolved` and `Submit` events have no caller in this file: `handleImageUpload` is not attached to any element, and `sendQuestion` is only called by `onEnterPress`. The model accepts these events anyway, which over-approximates the wired component.
- `sendQuestionDisabled` is computed but never used in the file; it is modelled as `Composer.SendQuestionDisabled` even though nothing reads it.
- `ThemeToggle.tsx` is browser I/O (`localStorage`, `matchMedia`, document attributes) around a one-line light/dark flip. It is not part of this model.
- `Button.tsx` is presentation with no state or behaviour. It is not part of this model.
- Strings are sequences of Unicode characters, whereas JavaScript strings are UTF-16 code units and can hold lone surrogates. A draft with a lone surrogate cannot be written in the model. No surrogate is white space, so trimming and the send gate treat such a unit like any other non-space character.
- `IsSpace` follows the Unicode 15 Zs category. Code points that later Unicode versions add to Zs are not covered.
