/**
 * The message composer as a pure state machine: the draft text, the single
 * attachment slot and the log of `onSend` calls, driven by the composer's
 * events under the props the host passes in. JavaScript truthiness is written
 * out: an empty string is as absent as `null` or `undefined`.
 */
module ComposerSpec {
  import opened Wrappers
  import opened JsString

  /** Largest height, in pixels, the textarea grows to before it scrolls. */
  const MaxTextareaHeight := 200

  /** One element of a multi-part message content. */
  datatype ContentPart = TextPart(text: string) | ImageUrlPart(url: string)

  /** `ChatMessage['content']` as the composer builds it: a string, or a list of parts. */
  datatype Payload = Plain(text: string) | Multi(parts: seq<ContentPart>)

  /** One invocation of the host's `onSend(content, id?)`; `id` is `None` when the argument is omitted. */
  datatype SendCall = SendCall(content: Payload, id: Option<string>)

  /** The props that drive the handlers; `clearOnSend` undefined reads as false. */
  datatype Props = Props(disabled: bool, clearOnSend: bool, conversationId: Option<string>)

  /** The composer's own state (`question`, `base64Image`) and every `onSend` call so far. */
  datatype Snapshot = Snapshot(question: string, image: Option<string>, sent: seq<SendCall>)

  /** What the external resize utility hands back: an encoded image, or a rejection. */
  datatype ResizeOutcome = Resized(encoded: string) | ResizeFailed

  /** The events the composer handles. */
  datatype Event =
    | Edit(value: string)                                        // textarea onChange
    | RemoveImage                                                // the remove-image button
    | ImageResolved(outcome: ResizeOutcome)                      // convertToBase64 settles
    | Submit                                                     // an explicit sendQuestion()
    | KeyDown(key: string, shift: bool, composing: Option<bool>) // textarea onKeyDown

  /** A string value that JavaScript treats as true: present and non-empty. */
  predicate Truthy(v: Option<string>) {
    v.Some? && v.value != ""
  }

  /** `Math.min(scrollHeight, 200)`, the height the textarea is given after a draft change. */
  function TextareaHeight(scrollHeight: int): (h: int)
    ensures h <= MaxTextareaHeight
    ensures h == scrollHeight || h == MaxTextareaHeight
    ensures scrollHeight <= MaxTextareaHeight ==> h == scrollHeight
    ensures MaxTextareaHeight <= scrollHeight ==> h == MaxTextareaHeight
  {
    if scrollHeight < MaxTextareaHeight then scrollHeight else MaxTextareaHeight
  }

  /**
   * `disabled || !question.trim()`: a send is refused, and `sendQuestionDisabled`
   * holds, exactly when the composer is disabled or the draft is blank.
   */
  function SendDisabled(disabled: bool, question: string): (off: bool)
    ensures off <==> disabled || IsBlank(question)
  {
    TrimEmptyIffBlank(question);
    disabled || Trim(question) == []
  }

  /** The text a payload carries: the string itself, or the text of its leading text part. */
  function PayloadText(p: Payload): string {
    match p
    case Plain(t) => t
    case Multi(parts) => if |parts| > 0 && parts[0].TextPart? then parts[0].text else ""
  }

  /** The image a payload carries: the url of its image part, if it has one after the text. */
  function PayloadImage(p: Payload): Option<string> {
    match p
    case Plain(_) => None
    case Multi(parts) => if |parts| == 2 && parts[1].ImageUrlPart? then Some(parts[1].url) else None
  }

  /** The two shapes the composer ever emits: a string, or `[text, image_url]` with a non-empty url. */
  predicate WellFormedPayload(p: Payload) {
    match p
    case Plain(_) => true
    case Multi(parts) =>
      |parts| == 2 && parts[0].TextPart? && parts[1].ImageUrlPart? && parts[1].url != ""
  }

  /**
   * The content handed to `onSend`: the untrimmed draft, paired with the image
   * as `[text, image_url]` when a (truthy) image is attached.
   */
  function BuildPayload(question: string, image: Option<string>): (p: Payload)
    ensures WellFormedPayload(p)
    ensures PayloadText(p) == question
    ensures PayloadImage(p) == (if Truthy(image) then image else None)
    ensures p.Multi? <==> Truthy(image)
  {
    if Truthy(image) then Multi([TextPart(question), ImageUrlPart(image.value)]) else Plain(question)
  }

  /** Every payload of the two emitted shapes is rebuilt from the text and image it carries. */
  lemma BuildPayloadFromParts(p: Payload)
    requires WellFormedPayload(p)
    ensures BuildPayload(PayloadText(p), PayloadImage(p)) == p
  {
    match p
    case Plain(_) =>
    case Multi(parts) =>
      assert parts == [parts[0], parts[1]];
  }

  /** The `id` argument of `onSend`: the conversation id when it is truthy, otherwise omitted. */
  function RouteId(conversationId: Option<string>): (id: Option<string>)
    ensures id.Some? <==> Truthy(conversationId)
    ensures id.Some? ==> id == conversationId
  {
    if Truthy(conversationId) then conversationId else None
  }

  /**
   * `sendQuestion`: a refused send changes nothing; a successful one appends one
   * call the composer can make, carrying the untrimmed draft, then empties the
   * attachment slot and clears the draft exactly when `clearOnSend` is set.
   */
  function SendQuestion(s: Snapshot, p: Props): (r: Snapshot)
    ensures p.disabled || IsBlank(s.question) ==> r == s
    ensures !p.disabled && !IsBlank(s.question) ==>
      && |r.sent| == |s.sent| + 1 && r.sent[..|s.sent|] == s.sent
      && ValidCall(r.sent[|s.sent|]) && PayloadText(r.sent[|s.sent|].content) == s.question
      && r.image == None
      && r.question == (if p.clearOnSend then "" else s.question)
  {
    if SendDisabled(p.disabled, s.question) then s
    else
      Snapshot(
        if p.clearOnSend then "" else s.question,
        None,
        s.sent + [SendCall(BuildPayload(s.question, s.image), RouteId(p.conversationId))])
  }

  /** `onEnterPress`'s condition: Enter, Shift not held, and not inside an IME composition. */
  predicate IsSubmitKey(key: string, shift: bool, composing: Option<bool>)
    ensures IsSubmitKey(key, shift, composing) ==> key == "Enter"
    ensures shift || composing == Some(true) ==> !IsSubmitKey(key, shift, composing)
  {
    key == "Enter" && !shift && composing != Some(true)
  }

  /**
   * The composer's response to one event. The `onSend` log is only extended, by
   * at most one call and only on a send or key event, and every call added is one
   * the composer can make.
   */
  function Step(s: Snapshot, p: Props, e: Event): (r: Snapshot)
    ensures |s.sent| <= |r.sent| && r.sent[..|s.sent|] == s.sent
    ensures |r.sent| <= |s.sent| + (if e.Submit? || e.KeyDown? then 1 else 0)
    ensures AllValid(s.sent) ==> AllValid(r.sent)
  {
    match e
    case Edit(value) => s.(question := value)
    case RemoveImage => s.(image := None)
    case ImageResolved(outcome) =>
      (match outcome
       case Resized(encoded) => s.(image := Some(encoded))
       case ResizeFailed => s)
    case Submit => SendQuestion(s, p)
    case KeyDown(key, shift, composing) =>
      if IsSubmitKey(key, shift, composing) then SendQuestion(s, p) else s
  }

  /**
   * One handler run: an event, with the props of the render that handles it.
   * The host may re-render the composer with new props between any two events.
   */
  datatype Input = Input(props: Props, event: Event)

  /** The composer's state after a sequence of inputs. */
  function Run(s: Snapshot, inputs: seq<Input>): Snapshot
    decreases |inputs|
  {
    if inputs == [] then s else Run(Step(s, inputs[0].props, inputs[0].event), inputs[1..])
  }

  /** The number of inputs that can reach `sendQuestion`. */
  function Triggers(inputs: seq<Input>): nat
    decreases |inputs|
  {
    if inputs == [] then 0
    else (if inputs[0].event.Submit? || inputs[0].event.KeyDown? then 1 else 0) + Triggers(inputs[1..])
  }

  /** The composer's initial state: empty draft, no attachment, nothing sent. */
  function Initial(): Snapshot {
    Snapshot("", None, [])
  }

  // ---------------------------------------------------------------------------
  // The submission gate

  /** A refused send leaves the draft, the attachment and the `onSend` log as they were. */
  lemma RefusedSendIsNoOp(s: Snapshot, p: Props)
    requires p.disabled || IsBlank(s.question)
    ensures SendQuestion(s, p) == s
  {
  }

  /** While enabled, `sendQuestion` calls `onSend` exactly once if the draft is not blank, and not at all otherwise. */
  lemma SendsIffNotBlank(s: Snapshot, p: Props)
    requires !p.disabled
    ensures var r := SendQuestion(s, p);
      (!IsBlank(s.question) ==> |r.sent| == |s.sent| + 1 && r.sent[..|s.sent|] == s.sent)
      && (IsBlank(s.question) ==> r.sent == s.sent)
  {
  }

  /** `sendQuestionDisabled` never disagrees with the gate: it holds exactly when no call is made. */
  lemma AffordanceMatchesGate(s: Snapshot, p: Props)
    ensures SendDisabled(p.disabled, s.question) <==> |SendQuestion(s, p).sent| == |s.sent|
  {
  }

  /** An attachment alone, with a blank draft, never produces a send. */
  lemma AttachmentAloneNeverSends(question: string, image: string, sent: seq<SendCall>, p: Props)
    requires IsBlank(question)
    ensures SendQuestion(Snapshot(question, Some(image), sent), p).sent == sent
  {
  }

  /**
   * What a successful send emits and leaves behind: the payload of the untrimmed
   * draft and the attachment, routed by the conversation id; the attachment is
   * cleared; the draft is cleared exactly when `clearOnSend` is set.
   */
  lemma SuccessfulSend(s: Snapshot, p: Props)
    requires !p.disabled && !IsBlank(s.question)
    ensures var r := SendQuestion(s, p);
      && |r.sent| == |s.sent| + 1 && r.sent[..|s.sent|] == s.sent
      && PayloadText(r.sent[|s.sent|].content) == s.question
      && (Truthy(s.image) ==> r.sent[|s.sent|].content == Multi([TextPart(s.question), ImageUrlPart(s.image.value)]))
      && (!Truthy(s.image) ==> r.sent[|s.sent|].content == Plain(s.question))
      && (Truthy(p.conversationId) ==> r.sent[|s.sent|].id == p.conversationId)
      && (!Truthy(p.conversationId) ==> r.sent[|s.sent|].id == None)
      && r.image == None
      && r.question == (if p.clearOnSend then "" else s.question)
  {
  }

  // ---------------------------------------------------------------------------
  // Key events

  /** A key that fires sends exactly what an explicit `sendQuestion` sends. */
  lemma EnterIsSubmit(s: Snapshot, p: Props, composing: Option<bool>)
    requires composing != Some(true)
    ensures Step(s, p, KeyDown("Enter", false, composing)) == Step(s, p, Submit)
  {
  }

  /** Every key event other than an unmodified, uncomposed Enter leaves the state untouched. */
  lemma OtherKeysChangeNothing(s: Snapshot, p: Props, key: string, shift: bool, composing: Option<bool>)
    requires key != "Enter" || shift || composing == Some(true)
    ensures Step(s, p, KeyDown(key, shift, composing)) == s
  {
  }

  // ---------------------------------------------------------------------------
  // Handlers that touch one field

  /** Removing the image empties the slot, keeps the draft, and a second removal changes nothing. */
  lemma RemoveImageClearsOnlySlot(s: Snapshot, p: Props)
    ensures var r := Step(s, p, RemoveImage);
      r.image == None && r.question == s.question && r.sent == s.sent
      && Step(r, p, RemoveImage) == r
  {
  }

  /** A text change replaces the draft verbatim and keeps the attachment. */
  lemma EditReplacesDraft(s: Snapshot, p: Props, value: string)
    ensures var r := Step(s, p, Edit(value));
      r.question == value && r.image == s.image && r.sent == s.sent
  {
  }

  /** A resize that succeeds overwrites the slot; one that fails leaves it alone. */
  lemma ImageResolvedEffect(s: Snapshot, p: Props, outcome: ResizeOutcome)
    ensures var r := Step(s, p, ImageResolved(outcome));
      r.question == s.question && r.sent == s.sent
      && r.image == (if outcome.Resized? then Some(outcome.encoded) else s.image)
  {
  }

  // ---------------------------------------------------------------------------
  // Properties of whole runs, with the host free to re-render between events

  /** A run only extends the `onSend` log, by at most one call per send trigger. */
  lemma {:induction false} RunSendsAtMostTriggers(s: Snapshot, inputs: seq<Input>)
    ensures var r := Run(s, inputs);
      |s.sent| <= |r.sent| <= |s.sent| + Triggers(inputs) && r.sent[..|s.sent|] == s.sent
    decreases |inputs|
  {
    if inputs != [] {
      var t := Step(s, inputs[0].props, inputs[0].event);
      RunSendsAtMostTriggers(t, inputs[1..]);
      var r := Run(t, inputs[1..]);
      assert r.sent[..|s.sent|] == r.sent[..|t.sent|][..|s.sent|];
    }
  }

  /** Every input is handled by a render with `disabled` set. */
  predicate AllDisabled(inputs: seq<Input>) {
    forall i :: 0 <= i < |inputs| ==> inputs[i].props.disabled
  }

  /**
   * While every render has `disabled` set, no sequence of events reaches
   * `onSend`, whatever else the host changes between renders.
   */
  lemma {:induction false} DisabledNeverSends(s: Snapshot, inputs: seq<Input>)
    requires AllDisabled(inputs)
    ensures Run(s, inputs).sent == s.sent
    decreases |inputs|
  {
    if inputs != [] {
      assert inputs[0].props.disabled;
      assert AllDisabled(inputs[1..]) by {
        forall i | 0 <= i < |inputs| - 1 ensures inputs[1..][i].props.disabled {
          assert inputs[1..][i] == inputs[i + 1];
        }
      }
      DisabledNeverSends(Step(s, inputs[0].props, inputs[0].event), inputs[1..]);
    }
  }

  /** A call the composer can make: a non-blank draft in one of the two shapes, an id only if truthy. */
  predicate ValidCall(c: SendCall) {
    WellFormedPayload(c.content) && !IsBlank(PayloadText(c.content)) && (c.id.Some? ==> c.id.value != "")
  }

  /** Every call in a log is one the composer can make. */
  predicate AllValid(log: seq<SendCall>) {
    forall i :: 0 <= i < |log| ==> ValidCall(log[i])
  }

  /** From the initial state, every `onSend` call carries a non-blank draft in one of the two shapes. */
  lemma {:induction false} RunKeepsCallsValid(s: Snapshot, inputs: seq<Input>)
    requires AllValid(s.sent)
    ensures AllValid(Run(s, inputs).sent)
    decreases |inputs|
  {
    if inputs != [] {
      RunKeepsCallsValid(Step(s, inputs[0].props, inputs[0].event), inputs[1..]);
    }
  }

  /** Running two inputs is stepping twice. */
  lemma RunPair(s: Snapshot, i1: Input, i2: Input)
    ensures Run(s, [i1, i2]) == Step(Step(s, i1.props, i1.event), i2.props, i2.event)
  {
    var t := Step(s, i1.props, i1.event);
    assert [i1, i2][1..] == [i2];
    assert Run(s, [i1, i2]) == Run(t, [i2]);
    assert [i2][1..] == [];
    assert Run(t, [i2]) == Run(Step(t, i2.props, i2.event), []);
  }

  /** Running one input is stepping once. */
  lemma RunOne(s: Snapshot, i1: Input)
    ensures Run(s, [i1]) == Step(s, i1.props, i1.event)
  {
    assert [i1][1..] == [];
  }

  /** An empty draft is always refused. */
  lemma EmptyDraftRefused(s: Snapshot, p: Props)
    requires s.question == ""
    ensures SendQuestion(s, p) == s
  {
  }

  /**
   * With `clearOnSend`, a second send straight after a successful one is refused,
   * whatever props the host renders the second time.
   */
  lemma ClearOnSendBlocksResend(s: Snapshot, p: Props, p': Props)
    requires p.clearOnSend && !p.disabled && !IsBlank(s.question)
    ensures var r := Run(s, [Input(p, Submit), Input(p', Submit)]);
      |r.sent| == |s.sent| + 1 && r.question == "" && r.image == None
  {
    RunPair(s, Input(p, Submit), Input(p', Submit));
    var t := Step(s, p, Submit);
    assert t == SendQuestion(s, p);
    assert t.question == "" && t.image == None;
    EmptyDraftRefused(t, p');
    assert Step(t, p', Submit) == t;
  }

  /**
   * Without `clearOnSend`, sending twice (the second render enabled too) repeats
   * the draft, and the second time without the image.
   */
  lemma ResendDropsImage(s: Snapshot, p: Props, p': Props)
    requires !p.clearOnSend && !p.disabled && !p'.disabled && !IsBlank(s.question)
    ensures var r := Run(s, [Input(p, Submit), Input(p', Submit)]);
      |r.sent| == |s.sent| + 2 && r.sent[|s.sent| + 1].content == Plain(s.question)
  {
    var t := SendQuestion(s, p);
    assert t.question == s.question && t.image == None;
    RunPair(s, Input(p, Submit), Input(p', Submit));
  }

  /** The inputs that leave no attachment behind: every event except a settled upload. */
  predicate NoUploads(inputs: seq<Input>) {
    forall i :: 0 <= i < |inputs| ==> !inputs[i].event.ImageResolved?
  }

  /** Every call in a log carries a plain-text payload. */
  predicate AllPlain(log: seq<SendCall>) {
    forall i :: 0 <= i < |log| ==> log[i].content.Plain?
  }

  /** One event other than a settled upload keeps the slot empty and the log plain. */
  lemma StepWithoutUploadKeepsPlain(s: Snapshot, p: Props, e: Event)
    requires s.image == None && AllPlain(s.sent) && !e.ImageResolved?
    ensures Step(s, p, e).image == None && AllPlain(Step(s, p, e).sent)
  {
    if e.Submit? || (e.KeyDown? && IsSubmitKey(e.key, e.shift, e.composing)) {
      assert Step(s, p, e) == SendQuestion(s, p);
      SendKeepsPlain(s, p);
    }
  }

  /** A send from an empty slot keeps the slot empty and appends, if anything, a plain-text call. */
  lemma SendKeepsPlain(s: Snapshot, p: Props)
    requires s.image == None && AllPlain(s.sent)
    ensures SendQuestion(s, p).image == None && AllPlain(SendQuestion(s, p).sent)
  {
    if !SendDisabled(p.disabled, s.question) {
      var c := SendCall(BuildPayload(s.question, None), RouteId(p.conversationId));
      assert SendQuestion(s, p).sent == s.sent + [c];
      assert c.content.Plain?;
    }
  }

  /**
   * With no upload settling, the slot stays empty and every call sends the plain
   * draft, across any re-renders. In this file no element is wired to
   * `handleImageUpload`, so from the initial state this is every run the
   * component can actually see.
   */
  lemma {:induction false} WithoutUploadsOnlyPlainText(s: Snapshot, inputs: seq<Input>)
    requires s.image == None && AllPlain(s.sent) && NoUploads(inputs)
    ensures var r := Run(s, inputs); r.image == None && AllPlain(r.sent)
    decreases |inputs|
  {
    if inputs != [] {
      var t := Step(s, inputs[0].props, inputs[0].event);
      StepWithoutUploadKeepsPlain(s, inputs[0].props, inputs[0].event);
      assert NoUploads(inputs[1..]) by {
        forall i | 0 <= i < |inputs| - 1 ensures !inputs[1..][i].event.ImageResolved? {
          assert inputs[1..][i] == inputs[i + 1];
        }
      }
      WithoutUploadsOnlyPlainText(t, inputs[1..]);
    }
  }

  // ---------------------------------------------------------------------------
  // Worked examples

  /** A blank draft with nothing attached sends nothing. */
  lemma BlankDraftExample()
    ensures var p := Props(false, false, None);
      Run(Initial(), [Input(p, Edit("   ")), Input(p, Submit)]).sent == []
  {
    var p := Props(false, false, None);
    RunPair(Initial(), Input(p, Edit("   ")), Input(p, Submit));
    assert IsSpace(' ');
    assert Step(Initial(), p, Edit("   ")) == Snapshot("   ", None, []);
    RefusedSendIsNoOp(Snapshot("   ", None, []), p);
  }

  /** "Hello", nothing attached, `clearOnSend`, no conversation: `onSend("Hello")`, then an empty draft. */
  lemma HelloExample()
    ensures var p := Props(false, true, None);
      var r := Run(Initial(), [Input(p, Edit("Hello")), Input(p, Submit)]);
      r.sent == [SendCall(Plain("Hello"), None)] && r.question == ""
  {
    var p := Props(false, true, None);
    var s := Snapshot("Hello", None, []);
    RunPair(Initial(), Input(p, Edit("Hello")), Input(p, Submit));
    assert Step(Initial(), p, Edit("Hello")) == s;
    assert !IsSpace(s.question[0]);
    SuccessfulSend(s, p);
  }

  /** "Look" with an attached image and conversation "conv-1": the two-part payload with the id, then no image. */
  lemma LookExample(image: string)
    requires image != ""
    ensures var r := Run(Snapshot("Look", Some(image), []), [Input(Props(false, false, Some("conv-1")), Submit)]);
      r.sent == [SendCall(Multi([TextPart("Look"), ImageUrlPart(image)]), Some("conv-1"))]
      && r.image == None && r.question == "Look"
  {
    var p := Props(false, false, Some("conv-1"));
    var s := Snapshot("Look", Some(image), []);
    RunOne(s, Input(p, Submit));
    assert !IsSpace(s.question[0]);
    SuccessfulSend(s, p);
  }
}
