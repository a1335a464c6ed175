/**
 * The careers page: job cards whose details can be expanded one at a
 * time, an "Apply" button that opens the application form for a job, and
 * the form's submit handler, which turns bots away silently, then asks
 * the rate limiter for a slot, then cleans and checks the fields with
 * `sanitize`, as on the contact page.
 */
module CareersPage {
  import opened Wrappers
  import opened Strings
  import opened Security
  import opened FormRules

  /**
   * The handler's inline checks: a name of at least 2 characters once
   * trimmed, a valid email, and a phone, which unlike on the other forms
   * is required.
   */
  const CareersRules: seq<Rule> := [
    Rule(Name, MinTrimmed(2), TooShort),
    Rule(Email, ValidEmail, Invalid),
    Rule(Phone, RequiredPhone, Invalid)
  ]

  /** Only the name, email and phone can have an error. */
  lemma CareersErrorFields(d: FormData)
    ensures Errors(CareersRules, d).Keys <= {Name, Email, Phone}
  {
    ErrorFields(CareersRules, d);
  }

  /** The name needs at least 2 characters once trimmed; a missing name has none. */
  lemma CareersNameCheck(d: FormData)
    ensures var errs := Errors(CareersRules, d);
      (Name in errs <==> Utf16Length(Trim(Value(d, Name))) < 2) && (Name in errs ==> errs[Name] == TooShort)
  {
    OnlyRule(CareersRules, d, 0);
    MinTrimmedReads(2, Value(d, Name));
  }

  /** The email must be one `isValidEmail` accepts. */
  lemma CareersEmailCheck(d: FormData)
    ensures var errs := Errors(CareersRules, d);
      (Email in errs <==> !IsValidEmail(Value(d, Email))) && (Email in errs ==> errs[Email] == Invalid)
  {
    OnlyRule(CareersRules, d, 1);
    ValidEmailReads(Value(d, Email));
  }

  /** The phone is required here, and must be valid. */
  lemma CareersPhoneCheck(d: FormData)
    ensures var errs := Errors(CareersRules, d);
      (Phone in errs <==> Value(d, Phone) == [] || !IsValidPhone(Value(d, Phone)))
      && (Phone in errs ==> errs[Phone] == Invalid)
  {
    OnlyRule(CareersRules, d, 2);
  }

  /** A form without a phone is always refused, whatever else it holds. */
  lemma MissingPhoneRefused(d: FormData)
    requires Value(d, Phone) == []
    ensures Phone in Errors(CareersRules, d) && Errors(CareersRules, d) != map[]
  {
    OnlyRule(CareersRules, d, 2);
  }

  /** The "Details" button of job `slug`: it collapses the job if expanded, else expands it alone. */
  function Toggle(expanded: Option<string>, slug: string): (r: Option<string>)
    ensures r == Some(slug) <==> expanded != Some(slug)
    ensures r.Some? ==> r == Some(slug)
  {
    if expanded == Some(slug) then None else Some(slug)
  }

  /** Pressing the same "Details" button twice restores what was expanded before, if it was that job or none. */
  lemma ToggleTwice(expanded: Option<string>, slug: string)
    requires expanded == None || expanded == Some(slug)
    ensures Toggle(Toggle(expanded, slug), slug) == expanded
  {
  }

  class CareersForm {
    /** The handler's inline check, as a closure over the cleaned form. */
    const validate: FormData -> map<Field, Reason>
    var selectedJob: Option<string>
    var expandedJob: Option<string>
    var submitted: bool
    var errors: map<Field, Reason>
    var rateLimited: bool
    /** How many `form_submit` analytics events the page has sent. */
    var submitEvents: nat

    constructor ()
      ensures forall d :: validate(d) == Errors(CareersRules, d)
      ensures selectedJob == None && expandedJob == None && !submitted
      ensures errors == map[] && !rateLimited && submitEvents == 0
    {
      validate := d => Errors(CareersRules, d);
      selectedJob := None;
      expandedJob := None;
      submitted := false;
      errors := map[];
      rateLimited := false;
      submitEvents := 0;
    }

    /** The application form is on screen: a job is selected (a non-empty slug) and nothing submitted. */
    predicate FormShown()
      reads this
    {
      selectedJob.Some? && selectedJob.value != "" && !submitted
    }

    /** "Details": at most one job is expanded, and it is the one whose button was pressed, if any. */
    method ToggleDetails(slug: string)
      modifies this
      ensures expandedJob == Toggle(old(expandedJob), slug)
      ensures selectedJob == old(selectedJob) && submitted == old(submitted)
      ensures errors == old(errors) && rateLimited == old(rateLimited) && submitEvents == old(submitEvents)
    {
      expandedJob := if expandedJob == Some(slug) then None else Some(slug);
    }

    /** "Apply": selects the job and clears the errors and the rate-limit notice. */
    method Apply(slug: string)
      modifies this
      ensures selectedJob == Some(slug) && errors == map[] && !rateLimited
      ensures slug != "" && !submitted ==> FormShown()
      ensures expandedJob == old(expandedJob) && submitted == old(submitted) && submitEvents == old(submitEvents)
    {
      selectedJob := Some(slug);
      errors := map[];
      rateLimited := false;
    }

    /** "Cancel": closes the form. */
    method Cancel()
      modifies this
      ensures selectedJob == None && !FormShown()
      ensures expandedJob == old(expandedJob) && submitted == old(submitted)
      ensures errors == old(errors) && rateLimited == old(rateLimited) && submitEvents == old(submitEvents)
    {
      selectedJob := None;
    }

    /**
     * `handleSubmit`, from the form on screen. A bot changes nothing. A
     * refused slot shows the rate-limit notice and stops. Otherwise the
     * slot is used up whatever follows and the errors are replaced by
     * those of the cleaned form; with none, the application counts as
     * submitted and the job is deselected, so the form is gone.
     */
    method HandleSubmit(limiter: RateLimiter, isBot: bool, now: int, input: FormData)
      requires FormShown()
      modifies this, limiter
      ensures expandedJob == old(expandedJob)
      ensures isBot ==> (
        && limiter.timestamps == old(limiter.timestamps)
        && selectedJob == old(selectedJob) && !submitted
        && errors == old(errors) && rateLimited == old(rateLimited) && submitEvents == old(submitEvents))
      ensures !isBot && old(limiter.IsRateLimited("careers", 3, 60000, now)) ==> (
        && limiter.timestamps == old(limiter.timestamps)
        && selectedJob == old(selectedJob) && !submitted
        && rateLimited && errors == old(errors) && submitEvents == old(submitEvents))
      ensures !isBot && !old(limiter.IsRateLimited("careers", 3, 60000, now)) ==> (
        && limiter.timestamps == old(limiter.timestamps)["careers" := Recent(old(limiter.Stored("careers")), now, 60000) + [now]]
        && errors == validate(Clean(input))
        && (submitted <==> errors == map[])
        && selectedJob == (if submitted then None else old(selectedJob))
        && rateLimited == old(rateLimited)
        && submitEvents == old(submitEvents) + (if submitted then 1 else 0))
      ensures FormShown() <==> !submitted
    {
      if !isBot {
        var ok := limiter.CanSubmit("careers", 3, 60000, now);
        if !ok {
          rateLimited := true;
        } else {
          var errs := validate(Clean(input));
          errors := errs;
          if errs == map[] {
            submitEvents := submitEvents + 1;
            submitted := true;
            selectedJob := None;
          }
        }
      }
    }

    /** "Browse More Positions": leaves the thank-you panel; no job is selected, so no form shows. */
    method BrowseMore()
      modifies this
      ensures !submitted && selectedJob == old(selectedJob)
      ensures old(submitted) && old(selectedJob) == None ==> !FormShown()
      ensures expandedJob == old(expandedJob) && errors == old(errors)
      ensures rateLimited == old(rateLimited) && submitEvents == old(submitEvents)
    {
      submitted := false;
    }
  }
}
