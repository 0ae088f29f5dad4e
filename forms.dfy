/** The contact form and the newsletter form of scripts.js: the checks run on
    submit and when a field loses focus, and the error state they leave on
    the page. */
module Forms {

  import opened Wrappers
  import opened Text
  import opened EmailPattern

  /** The contact form's validated fields, by element id. */
  datatype Field = Name | Email | Subject | Message

  /** The field an element id names; `None` for any other input of the form. */
  function FieldOf(id: string): Option<Field> {
    if id == "name" then Some(Name)
    else if id == "email" then Some(Email)
    else if id == "subject" then Some(Subject)
    else if id == "message" then Some(Message)
    else None
  }

  /** The submitted entries, one per field; `None` when the form has no entry
      of that name (the property is then `undefined`). */
  datatype ContactData = ContactData(name: Option<string>, email: Option<string>,
                                     subject: Option<string>, message: Option<string>)

  /** JavaScript truthiness of an entry: present and not the empty string. */
  predicate Filled(v: Option<string>) {
    v.Some? && v.value != ""
  }

  /** The check `validateForm` applies to one field on submit. Name and
      message are measured after trimming, in UTF-16 code units as
      JavaScript's `length` counts; the e-mail address is tested as typed.
      For name and message the emptiness test is subsumed by the length
      test. */
  predicate FieldValid(d: ContactData, f: Field)
    ensures f == Name ==> (FieldValid(d, f) <==> d.name.Some? && Utf16Length(Trim(d.name.value)) >= 2)
    ensures f == Message ==> (FieldValid(d, f) <==> d.message.Some? && Utf16Length(Trim(d.message.value)) >= 10)
  {
    match f
    case Name => Filled(d.name) && Utf16Length(Trim(d.name.value)) >= 2
    case Email => Filled(d.email) && MatchesEmail(d.email.value)
    case Subject => Filled(d.subject)
    case Message => Filled(d.message) && Utf16Length(Trim(d.message.value)) >= 10
  }

  predicate AllValid(d: ContactData) {
    FieldValid(d, Name) && FieldValid(d, Email) && FieldValid(d, Subject) && FieldValid(d, Message)
  }

  /** The message `validateForm` shows for a failing field. */
  function SubmitMessage(f: Field): string {
    match f
    case Name => "Please enter your full name (at least 2 characters)"
    case Email => "Please enter a valid email address"
    case Subject => "Please select a subject"
    case Message => "Please enter a message (at least 10 characters)"
  }

  /** The check the blur handler applies to a trimmed value of a field, and
      the message it shows on failure. The subject has no blur check. */
  predicate BlurValid(f: Field, value: string)
    requires f != Subject
    ensures BlurValid(f, value) ==> value != ""
  {
    match f
    case Name => Utf16Length(value) >= 2
    case Email => MatchesEmail(value)
    case Message => Utf16Length(value) >= 10
  }

  function BlurMessage(f: Field): string
    requires f != Subject
  {
    match f
    case Name => "Name must be at least 2 characters long"
    case Email => "Please enter a valid email address"
    case Message => "Message must be at least 10 characters long"
  }

  /** The errors shown after a submit of `d`, starting from `errors`: every
      failing field whose error anchors exist gets the submit message,
      whether or not an earlier field failed; every other field keeps what
      it showed before. */
  function SubmitErrors(errors: map<Field, string>, d: ContactData, anchored: set<Field>): (r: map<Field, string>)
    ensures forall f :: f in r <==> f in errors || (f in anchored && !FieldValid(d, f))
    ensures forall f :: f in anchored && !FieldValid(d, f) ==> r[f] == SubmitMessage(f)
  {
    Flag(Flag(Flag(Flag(errors, d, anchored, Name), d, anchored, Email), d, anchored, Subject), d, anchored, Message)
  }

  /** One step of the submit check: field `f` gets its message when it fails
      and its anchors exist; nothing else changes. */
  function Flag(errors: map<Field, string>, d: ContactData, anchored: set<Field>, f: Field): (r: map<Field, string>)
    ensures forall g :: g in r <==> g in errors || (g == f && f in anchored && !FieldValid(d, f))
    ensures f in anchored && !FieldValid(d, f) ==> r[f] == SubmitMessage(f)
    ensures forall g :: g in errors && (g != f || f !in anchored || FieldValid(d, f)) ==> r[g] == errors[g]
  {
    if f in anchored && !FieldValid(d, f) then errors[f := SubmitMessage(f)] else errors
  }

  /** A field that passes, or has no anchors, keeps what it showed before
      the submit. */
  lemma SubmitErrorsKeepsOthers(errors: map<Field, string>, d: ContactData, anchored: set<Field>, f: Field)
    requires f in errors && (f !in anchored || FieldValid(d, f))
    ensures f in SubmitErrors(errors, d, anchored) && SubmitErrors(errors, d, anchored)[f] == errors[f]
  {
  }

  /** A name of one character outside the Basic Multilingual Plane is two
      UTF-16 units long, so it passes the two-character minimum. */
  lemma AstralNameAccepted()
    ensures |"\U{1F600}"| == 1 && Utf16Length("\U{1F600}") == 2
    ensures FieldValid(ContactData(Some("\U{1F600}"), None, None, None), Name)
  {
  }

  /** With every anchor on the page and no error showing, a submit is
      accepted exactly when it leaves no error showing. */
  lemma ValidIffNoErrors(d: ContactData)
    ensures AllValid(d) <==> SubmitErrors(map[], d, {Name, Email, Subject, Message}) == map[]
  {
  }

  /** An address the submit check accepts has nothing to trim, so the blur
      check accepts it too. */
  lemma SubmitEmailPassesBlur(v: string)
    requires MatchesEmail(v)
    ensures Trim(v) == v && BlurValid(Email, Trim(v))
  {
  }

  /** For name and message, the blur check and the submit check agree on a
      present value. */
  lemma BlurAgreesWithSubmit(d: ContactData)
    requires d.name.Some? && d.message.Some?
    ensures FieldValid(d, Name) <==> BlurValid(Name, Trim(d.name.value))
    ensures FieldValid(d, Message) <==> BlurValid(Message, Trim(d.message.value))
  {
  }

  class ContactForm {
    /** The fields whose error element and enclosing form group exist. */
    const anchored: set<Field>
    /** The message in each field's error element, for the fields currently
        marked in error (error class on the group, `aria-invalid` on the
        field). A field absent from the map shows no error. */
    var errors: map<Field, string>
    /** Whether the page has the `#successMessage` element. */
    const successPresent: bool
    /** Whether the success message carries `show`. */
    var successShown: bool

    constructor (anchored: set<Field>, successPresent: bool)
      ensures this.anchored == anchored && this.successPresent == successPresent
      ensures errors == map[] && !successShown
    {
      this.anchored := anchored;
      this.successPresent := successPresent;
      errors := map[];
      successShown := false;
    }

    /** `showFieldError`: marks the field with the message, when its anchors
        exist. */
    method ShowFieldError(f: Field, message: string)
      modifies this`errors
      ensures f in anchored ==> errors == old(errors)[f := message]
      ensures f !in anchored ==> errors == old(errors)
    {
      if f in anchored {
        errors := errors[f := message];
      }
    }

    /** `clearFieldError`: removes the field's error, when its anchors exist. */
    method ClearFieldError(f: Field)
      modifies this`errors
      ensures f in anchored ==> errors == old(errors) - {f}
      ensures f !in anchored ==> errors == old(errors)
    {
      if f in anchored {
        errors := errors - {f};
      }
    }

    /** `validateForm(data)`: every field is checked in turn, each failure
        sets its error and clears the flag, and the flag holds at the end
        exactly when all four checks passed. */
    method ValidateForm(d: ContactData) returns (isValid: bool)
      modifies this`errors
      ensures isValid <==> AllValid(d)
      ensures errors == SubmitErrors(old(errors), d, anchored)
    {
      isValid := true;
      if !FieldValid(d, Name) {
        ShowFieldError(Name, SubmitMessage(Name));
        isValid := false;
      }
      if !FieldValid(d, Email) {
        ShowFieldError(Email, SubmitMessage(Email));
        isValid := false;
      }
      if !FieldValid(d, Subject) {
        ShowFieldError(Subject, SubmitMessage(Subject));
        isValid := false;
      }
      if !FieldValid(d, Message) {
        ShowFieldError(Message, SubmitMessage(Message));
        isValid := false;
      }
    }

    /** `handleFormSubmit`: an accepted submit shows the success message, when
        the page has one, and clears every error; a rejected one leaves the
        submit errors. */
    method Submit(d: ContactData) returns (accepted: bool)
      modifies this
      ensures accepted <==> AllValid(d)
      ensures accepted ==> errors == map[] && successShown == (successPresent || old(successShown))
      ensures !accepted ==> errors == SubmitErrors(old(errors), d, anchored) && successShown == old(successShown)
    {
      accepted := ValidateForm(d);
      if accepted {
        if successPresent {
          successShown := true;
        }
        errors := map[];
      }
    }

    /** `validateField` on the element with id `id` losing focus with value
        `raw`: the trimmed value is checked for name, e-mail and message, and
        the field's error is set or cleared accordingly; any other element is
        left alone. */
    method ValidateField(id: string, raw: string)
      modifies this`errors
      ensures FieldOf(id).None? || FieldOf(id) == Some(Subject) ==> errors == old(errors)
      ensures FieldOf(id).Some? && FieldOf(id) != Some(Subject) ==>
                var f := FieldOf(id).value;
                if f !in anchored then errors == old(errors)
                else if BlurValid(f, Trim(raw)) then errors == old(errors) - {f}
                else errors == old(errors)[f := BlurMessage(f)]
    {
      var value := Trim(raw);
      var field := FieldOf(id);
      if field.None? || field == Some(Subject) {
        return;
      }
      var f := field.value;
      if !BlurValid(f, value) {
        ShowFieldError(f, BlurMessage(f));
      } else {
        ClearFieldError(f);
      }
    }
  }

  /** `validateNewsletterEmail`'s check: the trimmed value is non-empty and
      matches the pattern. */
  predicate NewsletterAccepts(value: string)
    ensures NewsletterAccepts(value) <==> MatchesEmail(Trim(value))
  {
    Trim(value) != "" && MatchesEmail(Trim(value))
  }

  /** The newsletter accepts a value exactly when its trimmed form has the
      shape of an address; the emptiness test is subsumed by the pattern. */
  lemma NewsletterAcceptsShape(value: string)
    ensures NewsletterAccepts(value) <==> EmailShape(Trim(value))
    ensures NewsletterAccepts(value) ==> |Trim(value)| >= 5
  {
    MatchesEmailIffShape(Trim(value));
  }

  const NewsletterError := "Please enter a valid email address"

  class NewsletterForm {
    /** Whether the error element and the form group exist, and whether the
        `.newsletter-signup` card that receives success notices does. */
    const anchored: bool
    const signupPresent: bool
    /** The error element's text and the group's error class. */
    var errorText: string
    var inError: bool
    /** How many success notices the form has appended. */
    var notices: nat

    constructor (anchored: bool, signupPresent: bool)
      ensures this.anchored == anchored && this.signupPresent == signupPresent
      ensures errorText == "" && !inError && notices == 0
    {
      this.anchored, this.signupPresent := anchored, signupPresent;
      errorText, inError := "", false;
      notices := 0;
    }

    /** `validateNewsletterEmail`: the verdict, and an error shown exactly on
        rejection (when the anchors exist). */
    method ValidateNewsletterEmail(value: string) returns (ok: bool)
      modifies this`errorText, this`inError
      ensures ok <==> NewsletterAccepts(value)
      ensures anchored ==> (inError <==> !ok) && errorText == (if ok then "" else NewsletterError)
      ensures !anchored ==> errorText == old(errorText) && inError == old(inError)
    {
      var email := Trim(value);
      if email == "" || !MatchesEmail(email) {
        ShowNewsletterError(NewsletterError);
        ok := false;
      } else {
        ClearNewsletterError();
        ok := true;
      }
    }

    method ShowNewsletterError(message: string)
      modifies this`errorText, this`inError
      ensures anchored ==> errorText == message && inError
      ensures !anchored ==> errorText == old(errorText) && inError == old(inError)
    {
      if anchored {
        errorText, inError := message, true;
      }
    }

    method ClearNewsletterError()
      modifies this`errorText, this`inError
      ensures anchored ==> errorText == "" && !inError
      ensures !anchored ==> errorText == old(errorText) && inError == old(inError)
    {
      if anchored {
        errorText, inError := "", false;
      }
    }

    /** `handleNewsletterSubmit` with the entry `value`: an accepted address
        appends one success notice (when the signup card exists) and leaves
        no error; a rejected one shows the error. */
    method Submit(value: string) returns (accepted: bool)
      modifies this
      ensures accepted <==> NewsletterAccepts(value)
      ensures notices == old(notices) + (if accepted && signupPresent then 1 else 0)
      ensures anchored ==> (inError <==> !accepted) && errorText == (if accepted then "" else NewsletterError)
      ensures !anchored ==> errorText == old(errorText) && inError == old(inError)
    {
      accepted := ValidateNewsletterEmail(value);
      if accepted {
        if signupPresent {
          notices := notices + 1;
        }
        ClearNewsletterError();
      }
    }
  }
}
