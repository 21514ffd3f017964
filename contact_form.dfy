/**
 * The client-side contact form: its state, the event handlers that update it,
 * and the checks it makes before posting to the contact endpoint.
 */
module ContactForm {
  import opened Wrappers
  import ContactRoute

  /** The services offered as checkboxes, in display order. */
  const ServiceOptions: seq<string> := [
    "SEO",
    "Social Media Marketing",
    "Paid Ads",
    "Branding & Creative",
    "Website Development",
    "Performance Marketing"
  ]

  datatype FormData = FormData(
    fullName: string,
    companyName: string,
    workEmail: string,
    phoneNumber: string,
    industry: string,
    services: seq<string>,
    projectBrief: string)

  const EmptyForm := FormData("", "", "", "", "", [], "")

  /** The `name` attributes of the form's text inputs and its textarea. */
  datatype InputName = FullName | CompanyName | WorkEmail | PhoneNumber | Industry | ProjectBrief

  function Get(f: FormData, name: InputName): string {
    match name
    case FullName => f.fullName
    case CompanyName => f.companyName
    case WorkEmail => f.workEmail
    case PhoneNumber => f.phoneNumber
    case Industry => f.industry
    case ProjectBrief => f.projectBrief
  }

  /** `{ ...prev, [name]: value }`: only the named field changes. */
  function WithInput(f: FormData, name: InputName, value: string): (r: FormData)
    ensures Get(r, name) == value
    ensures forall other :: other != name ==> Get(r, other) == Get(f, other)
    ensures r.services == f.services
  {
    match name
    case FullName => f.(fullName := value)
    case CompanyName => f.(companyName := value)
    case WorkEmail => f.(workEmail := value)
    case PhoneNumber => f.(phoneNumber := value)
    case Industry => f.(industry := value)
    case ProjectBrief => f.(projectBrief := value)
  }

  // ---------------------------------------------------------------------
  // The services checkboxes

  /** `xs.filter(s => s !== x)`. */
  function Without(xs: seq<string>, x: string): (r: seq<string>)
    ensures |r| <= |xs|
    ensures x !in r
    ensures forall y :: y != x ==> (y in r <==> y in xs)
    ensures x !in xs ==> r == xs
  {
    if xs == [] then []
    else
      var rest := Without(xs[1..], x);
      assert xs == [xs[0]] + xs[1..];
      (if xs[0] == x then [] else [xs[0]]) + rest
  }

  lemma {:induction false} WithoutAppend(a: seq<string>, b: seq<string>, x: string)
    ensures Without(a + b, x) == Without(a, x) + Without(b, x)
  {
    if a == [] {
      assert a + b == b;
    } else {
      assert (a + b)[1..] == a[1..] + b;
      WithoutAppend(a[1..], b, x);
    }
  }

  /**
   * The services after the checkbox for `service` changes: every occurrence
   * removed when it was selected, appended at the end when it was not.
   * Either way `service` flips membership and the other services keep their
   * relative order.
   */
  function Toggle(services: seq<string>, service: string): (r: seq<string>)
    ensures service in r <==> service !in services
    ensures Without(r, service) == Without(services, service)
    ensures service !in services ==> |r| == |services| + 1 && r[|r| - 1] == service
  {
    if service in services then
      Without(services, service)
    else
      WithoutAppend(services, [service], service);
      assert Without([service], service) == [];
      services + [service]
  }

  /** Ticking a box and unticking it again restores the list exactly. */
  lemma ToggleTwiceRestores(services: seq<string>, service: string)
    requires service !in services
    ensures Toggle(Toggle(services, service), service) == services
  {
    var once := Toggle(services, service);
    assert once == services + [service];
    WithoutAppend(services, [service], service);
    assert Without([service], service) == [];
  }

  predicate NoDuplicates(xs: seq<string>) {
    forall i, j :: 0 <= i < j < |xs| ==> xs[i] != xs[j]
  }

  /** The services are distinct entries of `ServiceOptions`. */
  predicate WellFormedServices(services: seq<string>) {
    NoDuplicates(services) && forall s :: s in services ==> s in ServiceOptions
  }

  lemma {:induction false} WithoutKeepsDistinct(xs: seq<string>, x: string)
    requires NoDuplicates(xs)
    ensures NoDuplicates(Without(xs, x))
  {
    if xs != [] {
      WithoutKeepsDistinct(xs[1..], x);
      var rest := Without(xs[1..], x);
      if xs[0] != x {
        assert xs[0] !in xs[1..];
        var r := [xs[0]] + rest;
        forall i, j | 0 <= i < j < |r| ensures r[i] != r[j] {
          if i == 0 {
            assert r[j] == rest[j - 1] && r[j] in rest;
          } else {
            assert r[i] == rest[i - 1] && r[j] == rest[j - 1];
          }
        }
      } else {
        assert Without(xs, x) == [] + rest;
      }
    }
  }

  /** A toggle driven by one of the checkboxes keeps the services well formed. */
  lemma ToggleKeepsWellFormed(services: seq<string>, service: string)
    requires WellFormedServices(services) && service in ServiceOptions
    ensures WellFormedServices(Toggle(services, service))
  {
    if service in services {
      WithoutKeepsDistinct(services, service);
    } else {
      var r := services + [service];
      forall i, j | 0 <= i < j < |r| ensures r[i] != r[j] {
        if j == |services| {
          assert r[i] == services[i] && r[i] in services;
        }
      }
    }
  }

  /** The services after a sequence of checkbox changes, in order. */
  function ToggleAll(services: seq<string>, picks: seq<string>): seq<string>
    decreases picks
  {
    if picks == [] then services else ToggleAll(Toggle(services, picks[0]), picks[1..])
  }

  /**
   * Starting from the empty form and changing only the offered checkboxes,
   * the services stay free of duplicates and within `ServiceOptions`.
   */
  lemma {:induction false} TogglesStayWellFormed(services: seq<string>, picks: seq<string>)
    requires WellFormedServices(services)
    requires forall i :: 0 <= i < |picks| ==> picks[i] in ServiceOptions
    ensures WellFormedServices(ToggleAll(services, picks))
    decreases picks
  {
    if picks != [] {
      ToggleKeepsWellFormed(services, picks[0]);
      TogglesStayWellFormed(Toggle(services, picks[0]), picks[1..]);
    }
  }

  // ---------------------------------------------------------------------
  // Submission

  /** The JSON body `handleSubmit` posts: the form fields and the token. */
  datatype Submission = Submission(form: FormData, recaptchaToken: string)

  /**
   * How the awaited `fetch` and `response.json()` ended: one of them threw an
   * `Error` with `message`, or a JSON body arrived with the response's `ok`
   * flag and its `error` property (`""` when absent or empty).
   */
  datatype FetchOutcome = Threw(message: string) | Answered(ok: bool, error: string)

  predicate Succeeded(outcome: FetchOutcome) {
    outcome.Answered? && outcome.ok
  }

  const FillRequiredMessage: string := "Please fill in all required fields."
  const CompleteRecaptchaMessage: string := "Please complete the reCAPTCHA verification."
  const FallbackMessage: string := "Something went wrong"

  predicate RequiredFilled(f: FormData) {
    f.fullName != "" && f.companyName != "" && f.workEmail != "" && f.projectBrief != ""
  }

  /** The message a failed submission shows: the server's error, or a fallback when it sent none. */
  function FailureMessage(outcome: FetchOutcome): (msg: string)
    requires !Succeeded(outcome)
    ensures outcome.Answered? && outcome.error != "" ==> msg == outcome.error
    ensures outcome.Answered? && outcome.error == "" ==> msg == FallbackMessage
    ensures outcome.Threw? ==> msg == outcome.message
  {
    match outcome
    case Threw(message) => message
    case Answered(_, error) => if error != "" then error else FallbackMessage
  }

  /** The property each input is posted under: its `name` attribute. */
  function Key(name: InputName): string {
    match name
    case FullName => "fullName"
    case CompanyName => "companyName"
    case WorkEmail => "workEmail"
    case PhoneNumber => "phoneNumber"
    case Industry => "industry"
    case ProjectBrief => "projectBrief"
  }

  /**
   * The body the endpoint parses from `JSON.stringify({ ...formData, recaptchaToken })`:
   * each input's value as a string under its own name, the token under
   * `recaptchaToken`, and the services as an array of strings in order.
   */
  function ToRequest(s: Submission): (r: ContactRoute.ContactFormData)
    ensures forall name :: ContactRoute.FieldNamed(r, Key(name)) == ContactRoute.Str(Get(s.form, name))
    ensures ContactRoute.FieldNamed(r, "recaptchaToken") == ContactRoute.Str(s.recaptchaToken)
    ensures r.services.Array? && |r.services.items| == |s.form.services|
    ensures forall i :: 0 <= i < |s.form.services| ==> r.services.items[i] == ContactRoute.Str(s.form.services[i])
  {
    ContactRoute.ContactFormData(
      ContactRoute.Str(s.form.fullName),
      ContactRoute.Str(s.form.companyName),
      ContactRoute.Str(s.form.workEmail),
      ContactRoute.Str(s.form.phoneNumber),
      ContactRoute.Str(s.form.industry),
      ContactRoute.Array(seq(|s.form.services|, i requires 0 <= i < |s.form.services| => ContactRoute.Str(s.form.services[i]))),
      ContactRoute.Str(s.form.projectBrief),
      ContactRoute.Str(s.recaptchaToken))
  }

  /**
   * The form's own gate and the endpoint's presence check agree: a submission
   * the form lets through has no missing field, and one it holds back would
   * have been refused for missing fields.
   */
  lemma ClientGateMatchesServerPresence(s: Submission)
    ensures RequiredFilled(s.form) && s.recaptchaToken != "" <==> ContactRoute.MissingFields(ToRequest(s)) == []
  {
    var body := ToRequest(s);
    ContactRoute.MissingFieldsInOrder(body);
  }

  // ---------------------------------------------------------------------
  // The component's state

  class ContactFormState {
    var formData: FormData
    var error: string
    var recaptchaToken: string
    var isSubmitting: bool
    var isSubmitted: bool

    ghost predicate Valid()
      reads this
    {
      WellFormedServices(formData.services)
    }

    /** The initial state of the component. */
    constructor ()
      ensures Valid()
      ensures formData == EmptyForm && error == "" && recaptchaToken == ""
      ensures !isSubmitting && !isSubmitted
    {
      formData := EmptyForm;
      error := "";
      recaptchaToken := "";
      isSubmitting := false;
      isSubmitted := false;
    }

    /** `handleInputChange`: store the typed value in the named field and clear the error. */
    method HandleInputChange(name: InputName, value: string)
      requires Valid()
      modifies this
      ensures Valid()
      ensures formData == WithInput(old(formData), name, value)
      ensures error == ""
      ensures recaptchaToken == old(recaptchaToken)
      ensures isSubmitting == old(isSubmitting) && isSubmitted == old(isSubmitted)
    {
      formData := WithInput(formData, name, value);
      error := "";
    }

    /** `handleServiceChange`: flip one checkbox and clear the error. */
    method HandleServiceChange(service: string)
      requires Valid() && service in ServiceOptions
      modifies this
      ensures Valid()
      ensures formData == old(formData).(services := Toggle(old(formData.services), service))
      ensures error == ""
      ensures recaptchaToken == old(recaptchaToken)
      ensures isSubmitting == old(isSubmitting) && isSubmitted == old(isSubmitted)
    {
      ToggleKeepsWellFormed(formData.services, service);
      formData := formData.(services := Toggle(formData.services, service));
      error := "";
    }

    /** The widget's `onChange`: store the new token, or `''` when it expired. */
    method HandleRecaptchaChange(token: Option<string>)
      requires Valid()
      modifies this
      ensures Valid()
      ensures recaptchaToken == token.GetOr("")
      ensures formData == old(formData) && error == old(error)
      ensures isSubmitting == old(isSubmitting) && isSubmitted == old(isSubmitted)
    {
      recaptchaToken := token.GetOr("");
    }

    /** `resetForm`: every field empty, no service selected, no token. */
    method ResetForm()
      requires Valid()
      modifies this
      ensures Valid()
      ensures formData == EmptyForm && recaptchaToken == ""
      ensures error == old(error)
      ensures isSubmitting == old(isSubmitting) && isSubmitted == old(isSubmitted)
    {
      formData := EmptyForm;
      recaptchaToken := "";
    }

    /**
     * `handleSubmit` up to the awaited request: clear the error, then refuse
     * when a required field is empty, and only after that when the token is
     * missing; otherwise mark the form as submitting and return the request.
     */
    method HandleSubmit() returns (request: Option<Submission>)
      requires Valid()
      modifies this
      ensures Valid()
      ensures request.Some? <==> RequiredFilled(old(formData)) && old(recaptchaToken) != ""
      ensures !RequiredFilled(old(formData)) ==> error == FillRequiredMessage
      ensures RequiredFilled(old(formData)) && old(recaptchaToken) == "" ==> error == CompleteRecaptchaMessage
      ensures request.Some? ==> error == "" && isSubmitting
      ensures request.Some? ==> request.value == Submission(old(formData), old(recaptchaToken))
      ensures request.None? ==> isSubmitting == old(isSubmitting)
      ensures formData == old(formData) && recaptchaToken == old(recaptchaToken)
      ensures isSubmitted == old(isSubmitted)
    {
      error := "";
      if !RequiredFilled(formData) {
        error := FillRequiredMessage;
        return None;
      }
      if recaptchaToken == "" {
        error := CompleteRecaptchaMessage;
        return None;
      }
      isSubmitting := true;
      request := Some(Submission(formData, recaptchaToken));
    }

    /**
     * `handleSubmit` after the request settles: on an ok response mark the
     * form submitted and reset it; otherwise show the error. Either way the
     * form stops submitting.
     */
    method CompleteSubmit(outcome: FetchOutcome)
      requires Valid()
      modifies this
      ensures Valid()
      ensures !isSubmitting
      ensures Succeeded(outcome) ==>
                && isSubmitted && formData == EmptyForm && recaptchaToken == ""
                && error == old(error)
      ensures !Succeeded(outcome) ==>
                && error == FailureMessage(outcome)
                && formData == old(formData) && recaptchaToken == old(recaptchaToken)
                && isSubmitted == old(isSubmitted)
    {
      if Succeeded(outcome) {
        isSubmitted := true;
        ResetForm();
      } else {
        error := FailureMessage(outcome);
      }
      isSubmitting := false;
    }

    /** The timer started after a successful submission: hide the confirmation again. */
    method SuccessTimerFires()
      requires Valid()
      modifies this
      ensures Valid()
      ensures !isSubmitted
      ensures formData == old(formData) && error == old(error) && recaptchaToken == old(recaptchaToken)
      ensures isSubmitting == old(isSubmitting)
    {
      isSubmitted := false;
    }
  }
}
