/**
 * The contact form: the three text fields, the submit lifecycle
 * (idle, submitting, sent, idle again) and the submit button chosen from it.
 */
module Contact {

  /** The names of the form's inputs. */
  const FieldNames: set<string> := {"name", "email", "message"}

  /** The form as it starts and as a completed submit leaves it. */
  const EmptyForm: map<string, string> := map["name" := "", "email" := "", "message" := ""]

  /** The three contents the submit button can show. */
  datatype Label = Sending | Sent | SendMessage

  function LabelText(l: Label): string {
    match l
    case Sending => "Sending..."
    case Sent => "Message Sent! \U{2713}"
    case SendMessage => "Send Message"
  }

  /** What the submit button shows, whether it is disabled, and whether it has the success style. */
  datatype SubmitButton = SubmitButton(caption: Label, disabled: bool, success: bool)

  /**
   * The button for a form state. Submitting takes precedence over a previous
   * success: a second submit while "Message Sent!" is shown reads "Sending...".
   */
  function Button(isSubmitting: bool, submitted: bool): (b: SubmitButton)
    ensures b.disabled <==> isSubmitting
    ensures b.caption == Sending <==> isSubmitting
    ensures b.caption == Sent <==> !isSubmitting && submitted
    ensures b.caption == SendMessage <==> !isSubmitting && !submitted
    ensures b.success <==> submitted
  {
    SubmitButton(
      if isSubmitting then Sending else if submitted then Sent else SendMessage,
      isSubmitting,
      submitted)
  }

  /** The button is disabled exactly when it reads "Sending...". */
  lemma DisabledIffSending(isSubmitting: bool, submitted: bool)
    ensures Button(isSubmitting, submitted).disabled <==> Button(isSubmitting, submitted).caption == Sending
  {
  }

  /** The three labels have different texts, so the text alone tells which one is shown. */
  lemma LabelTextsDistinct(l1: Label, l2: Label)
    ensures LabelText(l1) == LabelText(l2) <==> l1 == l2
  {
    if l1 != l2 {
      assert LabelText(l1)[0] != LabelText(l2)[0] || LabelText(l1)[5] != LabelText(l2)[5];
    }
  }

  /** The form component's state. */
  class ContactForm {
    var formData: map<string, string>
    var isSubmitting: bool
    var submitted: bool

    /** Every input's value is always present. */
    ghost predicate Valid()
      reads this
    {
      FieldNames <= formData.Keys
    }

    constructor ()
      ensures Valid()
      ensures formData == EmptyForm && !isSubmitting && !submitted
    {
      formData := EmptyForm;
      isSubmitting := false;
      submitted := false;
    }

    /** handleChange: the input called name now holds value; nothing else changes. */
    method HandleChange(name: string, value: string)
      requires Valid()
      modifies this
      ensures Valid()
      ensures formData == old(formData)[name := value]
      ensures formData.Keys == old(formData).Keys + {name}
      ensures forall k :: k in old(formData) && k != name ==> formData[k] == old(formData)[k]
      ensures isSubmitting == old(isSubmitting) && submitted == old(submitted)
    {
      formData := formData[name := value];
    }

    /** The start of handleSubmit. */
    method BeginSubmit()
      requires Valid()
      modifies this
      ensures Valid()
      ensures isSubmitting
      ensures formData == old(formData) && submitted == old(submitted)
    {
      isSubmitting := true;
    }

    /** The end of handleSubmit, after the simulated delay: sent, and the form cleared. */
    method CompleteSubmit()
      requires Valid()
      modifies this
      ensures Valid()
      ensures !isSubmitting && submitted && formData == EmptyForm
    {
      isSubmitting := false;
      submitted := true;
      formData := EmptyForm;
    }

    /** The timeout after a completed submit: the success state ends; nothing else changes. */
    method ClearSubmitted()
      requires Valid()
      modifies this
      ensures Valid()
      ensures !submitted
      ensures formData == old(formData) && isSubmitting == old(isSubmitting)
    {
      submitted := false;
    }
  }

  /** One submit, step by step, and the button shown after each step. */
  method SubmitLifecycle()
  {
    var form := new ContactForm();
    assert Button(form.isSubmitting, form.submitted).caption == SendMessage;
    form.HandleChange("name", "Ada");
    form.HandleChange("email", "ada@example.org");
    assert form.formData["name"] == "Ada" && form.formData["message"] == "";
    form.BeginSubmit();
    assert Button(form.isSubmitting, form.submitted) == SubmitButton(Sending, true, false);
    form.CompleteSubmit();
    assert Button(form.isSubmitting, form.submitted) == SubmitButton(Sent, false, true);
    assert form.formData == EmptyForm;
    form.ClearSubmitted();
    assert Button(form.isSubmitting, form.submitted) == SubmitButton(SendMessage, false, false);
  }
}
