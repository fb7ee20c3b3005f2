/**
 * The ticket intake form: four text fields and two flags, changed by the
 * field-edit handler, the two halves of the description-blur handler (the
 * guarded request, then applying its response) and the two halves of the
 * submit handler (building the defaulted payload, then the outcome).
 *
 * The HTTP calls are outside the model: each "Finish" step receives the
 * outcome of the request its "Begin" step issued.
 */
module TicketForm {
  import opened Wrappers
  import opened Tickets
  import Classify

  /** The names of the form's inputs. */
  datatype FormField = Title | Description | CategoryField | PriorityField

  /** The `formData` state; an empty string is an unset field. */
  datatype FormData = FormData(title: string, description: string, category: string, priority: string)
  {
    function Get(f: FormField): string
    {
      match f
      case Title => title
      case Description => description
      case CategoryField => category
      case PriorityField => priority
    }

    /** `{ ...formData, [name]: value }`: the named field takes the value, the others keep theirs. */
    function With(f: FormField, v: string): (r: FormData)
      ensures forall g: FormField :: r.Get(g) == if g == f then v else Get(g)
    {
      match f
      case Title => this.(title := v)
      case Description => this.(description := v)
      case CategoryField => this.(category := v)
      case PriorityField => this.(priority := v)
    }
  }

  const EmptyForm: FormData := FormData("", "", "", "")

  /** The guard of the blur handler: a description and neither category nor priority chosen. */
  predicate ShouldClassify(d: FormData)
    ensures ShouldClassify(d) ==> WithDefaults(d) == d.(category := CategoryName(General), priority := PriorityName(Low))
  {
    d.description != "" && d.category == "" && d.priority == ""
  }

  /** The body of a classify response as the form reads it; either key may be missing. */
  datatype Suggestion = Suggestion(suggestedCategory: Option<string>, suggestedPriority: Option<string>)

  /** JavaScript's `v || fallback` for a string that may be missing. */
  function OrElse(v: Option<string>, fallback: string): (r: string)
    ensures v.Some? && v.value != "" ==> r == v.value
    ensures v.None? || v.value == "" ==> r == fallback
  {
    if v.Some? && v.value != "" then v.value else fallback
  }

  /**
   * Applying a classify response to the current form: category and priority
   * take the suggestion or fall back to general and medium, whatever they
   * held; title and description are kept. Both become non-empty.
   */
  function ApplySuggestion(d: FormData, s: Suggestion): (r: FormData)
    ensures r.title == d.title && r.description == d.description
    ensures r.category == OrElse(s.suggestedCategory, CategoryName(General))
    ensures r.priority == OrElse(s.suggestedPriority, PriorityName(Medium))
    ensures r.category != "" && r.priority != ""
  {
    d.(category := OrElse(s.suggestedCategory, CategoryName(General)),
       priority := OrElse(s.suggestedPriority, PriorityName(Medium)))
  }

  /**
   * The submit payload: title and description as entered; an unset category
   * becomes general and an unset priority becomes low, a set one is kept.
   */
  function WithDefaults(d: FormData): (p: FormData)
    ensures p.title == d.title && p.description == d.description
    ensures d.category != "" ==> p.category == d.category
    ensures d.category == "" ==> p.category == CategoryName(General)
    ensures d.priority != "" ==> p.priority == d.priority
    ensures d.priority == "" ==> p.priority == PriorityName(Low)
    ensures p.category != "" && p.priority != ""
  {
    FormData(d.title, d.description,
             if d.category != "" then d.category else CategoryName(General),
             if d.priority != "" then d.priority else PriorityName(Low))
  }

  /**
   * How the form sees the classify action's answer: an error status makes
   * the request fail; the fallback and a parsed object are read key by key.
   */
  function Received(r: Classify.ClassifyResponse<map<string, string>>): (s: Option<Suggestion>)
    ensures s.None? <==> r.StatusCode() != 200
    ensures r.Fallback? ==> s == Some(Suggestion(Some(r.suggestedCategory), Some(r.suggestedPriority)))
    ensures r.Suggested? ==> (
              && s.Some?
              && (s.value.suggestedCategory.Some? <==> "suggested_category" in r.result)
              && ("suggested_category" in r.result ==> s.value.suggestedCategory.value == r.result["suggested_category"])
              && (s.value.suggestedPriority.Some? <==> "suggested_priority" in r.result)
              && ("suggested_priority" in r.result ==> s.value.suggestedPriority.value == r.result["suggested_priority"]))
  {
    match r
    case BadRequest(_) => None
    case Unavailable(_) => None
    case Fallback(c, p, _) => Some(Suggestion(Some(c), Some(p)))
    case Suggested(m) =>
      Some(Suggestion(if "suggested_category" in m then Some(m["suggested_category"]) else None,
                      if "suggested_priority" in m then Some(m["suggested_priority"]) else None))
  }

  /** Submitting after a suggestion was applied sends exactly the suggested fields. */
  lemma SuggestionSurvivesSubmit(d: FormData, s: Suggestion)
    ensures WithDefaults(ApplySuggestion(d, s)) == ApplySuggestion(d, s)
  {
  }

  /** Defaulting is idempotent and changes only unset fields. */
  lemma DefaultsAreIdempotent(d: FormData)
    ensures WithDefaults(WithDefaults(d)) == WithDefaults(d)
    ensures d.category != "" && d.priority != "" ==> WithDefaults(d) == d
  {
  }

  /**
   * The two fallbacks differ: a response without a priority sets medium,
   * while a submit with no priority at all sends low.
   */
  lemma FallbackPrioritiesDiffer(d: FormData)
    requires ShouldClassify(d)
    ensures WithDefaults(ApplySuggestion(d, Suggestion(None, None))).priority == "medium"
    ensures WithDefaults(d).priority == "low"
  {
  }

  /**
   * When the model call fails, the backend answers general/medium and the
   * form takes those values; when the backend refuses the request, the form
   * treats it as a failed request and keeps what it had.
   */
  lemma FailedModelCallReachesForm(d: FormData, apiKey: string, parse: string -> Option<map<string, string>>)
    requires d.description != "" && apiKey != ""
    ensures var r := Classify.ClassifyRequest(Some(d.description), Some(apiKey), None, parse);
      && Received(r).Some?
      && ApplySuggestion(d, Received(r).value) == d.(category := "general", priority := "medium")
    ensures Received(Classify.ClassifyRequest(Some(d.description), None, None, parse)) == None
  {
  }

  /**
   * The response is applied to the form as it is when the response arrives,
   * without looking again at category and priority: a priority the user
   * chose while the request was in flight is overwritten.
   */
  lemma LateSuggestionOverwritesUserChoice(d: FormData)
    requires d.priority == "critical"
    ensures ApplySuggestion(d, Suggestion(Some("technical"), Some("high"))).priority == "high"
  {
  }

  /**
   * A new ticket: blur on a filled description with nothing chosen, the
   * classifier answers technical/high, and the submit sends those values.
   */
  lemma ClassifiedSubmission()
    ensures var d := EmptyForm.With(Title, "Login broken").With(Description, "Cannot log in since update");
      && ShouldClassify(d)
      && WithDefaults(ApplySuggestion(d, Suggestion(Some("technical"), Some("high"))))
         == FormData("Login broken", "Cannot log in since update", "technical", "high")
  {
  }

  /** The intake form component's state and handlers. */
  class IntakeForm {
    var formData: FormData
    var loading: bool
    var classifying: bool
    /** How many times the creation listener has been called. */
    var createdSignals: nat
    /** Whether the parent passed an `onTicketCreated` listener. */
    const hasListener: bool

    constructor (hasListener: bool)
      ensures formData == EmptyForm && !loading && !classifying
      ensures createdSignals == 0 && this.hasListener == hasListener
    {
      formData := EmptyForm;
      loading := false;
      classifying := false;
      createdSignals := 0;
      this.hasListener := hasListener;
    }

    /** The change handler: only the edited field changes. */
    method HandleChange(field: FormField, value: string)
      modifies this`formData
      ensures formData == old(formData).With(field, value)
      ensures forall g: FormField :: g != field ==> formData.Get(g) == old(formData).Get(g)
    {
      formData := formData.With(field, value);
    }

    /**
     * The blur handler up to the request: nothing happens unless the guard
     * holds; otherwise the flag is raised and the description is sent.
     */
    method BeginClassify() returns (request: Option<string>)
      modifies this`classifying
      ensures request.Some? <==> ShouldClassify(formData)
      ensures request.Some? ==> request.value == formData.description && classifying
      ensures request.None? ==> classifying == old(classifying)
    {
      if !ShouldClassify(formData) {
        return None;
      }
      classifying := true;
      request := Some(formData.description);
    }

    /**
     * The blur handler after the request: a response is applied to the
     * current form, a failure leaves it alone; the flag is lowered either way.
     */
    method FinishClassify(response: Option<Suggestion>)
      modifies this`formData, this`classifying
      ensures !classifying
      ensures response.Some? ==> formData == ApplySuggestion(old(formData), response.value)
      ensures response.None? ==> formData == old(formData)
    {
      if response.Some? {
        formData := ApplySuggestion(formData, response.value);
      }
      classifying := false;
    }

    /**
     * The submit handler up to the request: raises `loading` and sends the
     * defaulted form. The browser submits only with a title and a
     * description, both inputs being `required`.
     */
    method BeginSubmit() returns (payload: FormData)
      requires formData.title != "" && formData.description != ""
      modifies this`loading
      ensures loading
      ensures payload == WithDefaults(formData)
    {
      loading := true;
      payload := WithDefaults(formData);
    }

    /**
     * The submit handler after the request: on success the form is cleared
     * and the listener, if any, is called once; on failure the form is kept.
     * `loading` is lowered either way.
     */
    method FinishSubmit(created: bool)
      modifies this`formData, this`loading, this`createdSignals
      ensures !loading
      ensures created ==> formData == EmptyForm
      ensures created ==> createdSignals == old(createdSignals) + (if hasListener then 1 else 0)
      ensures !created ==> formData == old(formData) && createdSignals == old(createdSignals)
    {
      if created {
        formData := EmptyForm;
        if hasListener {
          createdSignals := createdSignals + 1;
        }
      }
      loading := false;
    }
  }
}
