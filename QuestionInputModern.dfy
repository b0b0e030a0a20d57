/**
 * The `QuestionInputModern` component as an object: its two pieces of React
 * state (`question`, `base64Image`), the props the host last rendered it with,
 * the textarea height, and a ghost log standing in for the host's `onSend`.
 * Each handler is a method proved against `ComposerSpec.Step`.
 */
module QuestionInputModern {
  import opened Wrappers
  import opened JsString
  import opened ComposerSpec

  class Composer {
    var question: string
    var base64Image: Option<string>
    var disabled: bool
    var clearOnSend: bool
    var conversationId: Option<string>
    var height: int
    ghost var sent: seq<SendCall>

    /** The state the handlers act on. */
    ghost function State(): Snapshot
      reads this
    {
      Snapshot(question, base64Image, sent)
    }

    /** The props the handlers read. */
    function CurrentProps(): Props
      reads this
    {
      Props(disabled, clearOnSend, conversationId)
    }

    /** Mounting: empty draft, no image, nothing sent, and the mount-time resize applied. */
    constructor(disabled: bool, clearOnSend: bool, conversationId: Option<string>, scrollHeight: int)
      ensures State() == Initial()
      ensures CurrentProps() == Props(disabled, clearOnSend, conversationId)
      ensures height == TextareaHeight(scrollHeight)
    {
      question := "";
      base64Image := None;
      this.disabled := disabled;
      this.clearOnSend := clearOnSend;
      this.conversationId := conversationId;
      height := TextareaHeight(scrollHeight);
      sent := [];
    }

    /** The host re-renders the composer with new props; its own state is kept. */
    method Rerender(disabled: bool, clearOnSend: bool, conversationId: Option<string>)
      modifies this
      ensures CurrentProps() == Props(disabled, clearOnSend, conversationId)
      ensures State() == old(State()) && height == old(height)
    {
      this.disabled := disabled;
      this.clearOnSend := clearOnSend;
      this.conversationId := conversationId;
    }

    /** `autoResizeTextarea`, given the content height the browser measured. */
    method AutoResize(scrollHeight: int)
      modifies this`height
      ensures height == TextareaHeight(scrollHeight)
      ensures height <= MaxTextareaHeight
    {
      height := TextareaHeight(scrollHeight);
    }

    /** The textarea's `onChange`: the draft becomes the new value, verbatim. */
    method OnChange(value: string)
      modifies this`question
      ensures question == value
      ensures State() == Step(old(State()), CurrentProps(), Edit(value))
    {
      question := value;
    }

    /** The remove-image button: the slot is emptied whatever it held. */
    method RemoveImage()
      modifies this`base64Image
      ensures base64Image == None
      ensures State() == Step(old(State()), CurrentProps(), ComposerSpec.RemoveImage)
    {
      base64Image := None;
    }

    /** `convertToBase64` once the resize utility settles: success fills the slot, failure is only logged. */
    method ConvertToBase64(outcome: ResizeOutcome)
      modifies this`base64Image
      ensures outcome.Resized? ==> base64Image == Some(outcome.encoded)
      ensures outcome.ResizeFailed? ==> base64Image == old(base64Image)
      ensures State() == Step(old(State()), CurrentProps(), ImageResolved(outcome))
    {
      match outcome
      case Resized(encoded) =>
        base64Image := Some(encoded);
      case ResizeFailed =>
    }

    /** `sendQuestionDisabled` (computed, never read in the file): true exactly when a send would be refused. */
    function SendQuestionDisabled(): (off: bool)
      reads this
      ensures off <==> disabled || IsBlank(question)
      ensures off <==> |ComposerSpec.SendQuestion(State(), CurrentProps()).sent| == |sent|
    {
      SendDisabled(disabled, question)
    }

    /** `sendQuestion`: the gate, one `onSend` call routed by the conversation id, then the clean-up. */
    method SendQuestion()
      modifies this`question, this`base64Image, this`sent
      ensures State() == ComposerSpec.SendQuestion(old(State()), CurrentProps())
      ensures old(disabled || IsBlank(question)) ==> State() == old(State())
      ensures !old(disabled || IsBlank(question)) ==>
        && sent == old(sent) + [SendCall(BuildPayload(old(question), old(base64Image)), RouteId(conversationId))]
        && base64Image == None
        && question == (if clearOnSend then "" else old(question))
    {
      if SendDisabled(disabled, question) {
        return;
      }
      var payload := BuildPayload(question, base64Image);
      if Truthy(conversationId) {
        sent := sent + [SendCall(payload, conversationId)];
        base64Image := None;
      } else {
        sent := sent + [SendCall(payload, None)];
        base64Image := None;
      }
      if clearOnSend {
        question := "";
      }
    }

    /** `onEnterPress`: an unmodified, uncomposed Enter suppresses the newline and sends. */
    method OnEnterPress(key: string, shift: bool, composing: Option<bool>) returns (preventDefault: bool)
      modifies this`question, this`base64Image, this`sent
      ensures preventDefault <==> key == "Enter" && !shift && composing != Some(true)
      ensures State() == Step(old(State()), CurrentProps(), KeyDown(key, shift, composing))
      ensures !preventDefault ==> State() == old(State())
    {
      preventDefault := key == "Enter" && !shift && !(composing == Some(true));
      if preventDefault {
        SendQuestion();
      }
    }
  }

  /**
   * A session as the component is wired: mount, type, Shift+Enter (a line break,
   * no send), Enter (one plain-text call), Enter again (refused: the draft was cleared).
   */
  method TypeAndEnter(draft: string)
    requires draft != [] && !IsSpace(draft[0])
  {
    var c := new Composer(false, true, Some("conv-1"), 40);
    c.OnChange(draft);
    var shifted := c.OnEnterPress("Enter", true, None);
    assert !shifted && c.sent == [];
    var fired := c.OnEnterPress("Enter", false, None);
    assert fired;
    assert c.sent == [SendCall(Plain(draft), Some("conv-1"))];
    assert c.question == "";
    var again := c.OnEnterPress("Enter", false, Some(false));
    assert again && |c.sent| == 1;
  }
}
