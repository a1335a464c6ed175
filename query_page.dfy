/**
 * The "Ask a Query" page: its field checks, the once-only form-start
 * event sent on the first focus, and the submit handler, which turns bots
 * away silently, then asks the rate limiter for a slot, then cleans and
 * checks the fields, and shows the confirmation only when nothing is
 * wrong. Fields are cleaned with `sanitize`, as on the contact page.
 */
module QueryPage {
  import opened Strings
  import opened Security
  import opened FormRules

  /**
   * The page's `validate`: a name of 2 to 100 characters, a valid email,
   * an optional valid phone, a category, and a query of 10 to 5000
   * characters; a too-long error replaces the too-short one.
   */
  const QueryRules: seq<Rule> := [
    Rule(Name, MinTrimmed(2), TooShort),
    Rule(Name, MaxLength(100), TooLong),
    Rule(Email, ValidEmail, Invalid),
    Rule(Phone, OptionalPhone, Invalid),
    Rule(Category, Required, Missing),
    Rule(Message, MinTrimmed(10), TooShort),
    Rule(Message, MaxLength(5000), TooLong)
  ]

  /** Only the five fields the rules are about can have an error; a subject never does. */
  lemma QueryErrorFields(d: FormData)
    ensures Errors(QueryRules, d).Keys <= {Name, Email, Phone, Category, Message}
  {
    ErrorFields(QueryRules, d);
  }

  /** The name needs 2 characters once trimmed and at most 100; too long replaces too short. */
  lemma QueryNameCheck(d: FormData)
    ensures var errs, n := Errors(QueryRules, d), Value(d, Name);
      (Name in errs <==> Utf16Length(Trim(n)) < 2 || Utf16Length(n) > 100)
      && (Name in errs ==> errs[Name] == if Utf16Length(n) > 100 then TooLong else TooShort)
  {
    TwoRules(QueryRules, d, 0, 1);
    MinTrimmedReads(2, Value(d, Name));
  }

  /** The email is required and must be valid. */
  lemma QueryEmailCheck(d: FormData)
    ensures var errs := Errors(QueryRules, d);
      (Email in errs <==> !IsValidEmail(Value(d, Email))) && (Email in errs ==> errs[Email] == Invalid)
  {
    OnlyRule(QueryRules, d, 2);
    ValidEmailReads(Value(d, Email));
  }

  /** A phone is optional; one that is given must be valid. */
  lemma QueryPhoneCheck(d: FormData)
    ensures var errs := Errors(QueryRules, d);
      (Phone in errs <==> Value(d, Phone) != [] && !IsValidPhone(Value(d, Phone)))
      && (Phone in errs ==> errs[Phone] == Invalid)
  {
    OnlyRule(QueryRules, d, 3);
  }

  /** A category must be chosen. */
  lemma QueryCategoryCheck(d: FormData)
    ensures var errs := Errors(QueryRules, d);
      (Category in errs <==> Value(d, Category) == []) && (Category in errs ==> errs[Category] == Missing)
  {
    OnlyRule(QueryRules, d, 4);
  }

  /** The query needs 10 characters once trimmed and at most 5000; too long replaces too short. */
  lemma QueryMessageCheck(d: FormData)
    ensures var errs, m := Errors(QueryRules, d), Value(d, Message);
      (Message in errs <==> Utf16Length(Trim(m)) < 10 || Utf16Length(m) > 5000)
      && (Message in errs ==> errs[Message] == if Utf16Length(m) > 5000 then TooLong else TooShort)
  {
    TwoRules(QueryRules, d, 5, 6);
    MinTrimmedReads(10, Value(d, Message));
  }

  /**
   * Unlike the contact page, the query page makes every check the
   * library's `validateContactForm` makes, so the two flag the same
   * fields among name, email, phone and message, whatever the form holds.
   */
  lemma QueryAgreesOnName(d: FormData)
    ensures Name in Errors(QueryRules, d) <==> LibraryFlags(d, Name)
  {
    var n := Value(d, Name);
    QueryNameCheck(d);
    assert LibraryFlags(d, Name) <==> !NameOk(n) by {
      LibraryField(d, Name);
    }
  }

  lemma QueryAgreesOnEmail(d: FormData)
    ensures Email in Errors(QueryRules, d) <==> LibraryFlags(d, Email)
  {
    LibraryField(d, Email);
    QueryEmailCheck(d);
  }

  lemma QueryAgreesOnPhone(d: FormData)
    ensures Phone in Errors(QueryRules, d) <==> LibraryFlags(d, Phone)
  {
    LibraryField(d, Phone);
    QueryPhoneCheck(d);
  }

  lemma QueryAgreesOnMessage(d: FormData)
    ensures Message in Errors(QueryRules, d) <==> LibraryFlags(d, Message)
  {
    LibraryMessage(d);
    QueryMessageCheck(d);
  }

  class QueryForm {
    /** The page's `validate` closure: the check it runs on the cleaned form. */
    const validate: FormData -> map<Field, Reason>
    var submitted: bool
    var errors: map<Field, Reason>
    var rateLimited: bool
    var formStarted: bool
    /** How many `form_start` and `form_submit` analytics events the page has sent. */
    var startEvents: nat
    var submitEvents: nat

    /** The form-start event has been sent once exactly when the form has been started. */
    predicate Valid()
      reads this
    {
      startEvents == if formStarted then 1 else 0
    }

    constructor ()
      ensures forall d :: validate(d) == Errors(QueryRules, d)
      ensures Valid()
      ensures !submitted && errors == map[] && !rateLimited && !formStarted
      ensures startEvents == 0 && submitEvents == 0
    {
      validate := d => Errors(QueryRules, d);
      submitted := false;
      errors := map[];
      rateLimited := false;
      formStarted := false;
      startEvents := 0;
      submitEvents := 0;
    }

    /** `handleFocus`: the first focus marks the form started and sends the event; later ones do nothing. */
    method HandleFocus()
      requires Valid()
      modifies this
      ensures Valid() && formStarted && startEvents == 1
      ensures startEvents == old(startEvents) + (if old(formStarted) then 0 else 1)
      ensures submitted == old(submitted) && errors == old(errors) && rateLimited == old(rateLimited)
      ensures submitEvents == old(submitEvents)
    {
      if !formStarted {
        formStarted := true;
        startEvents := startEvents + 1;
      }
    }

    /**
     * `handleSubmit`, from the form on screen. A bot changes nothing. A
     * refused slot shows the rate-limit notice and stops. Otherwise the
     * slot is used up whatever follows, the errors are replaced by those of
     * the cleaned form, and the page counts as submitted exactly when
     * there are none.
     */
    method HandleSubmit(limiter: RateLimiter, isBot: bool, now: int, input: FormData)
      requires Valid() && !submitted
      modifies this, limiter
      ensures Valid() && formStarted == old(formStarted) && startEvents == old(startEvents)
      ensures isBot ==> (
        && limiter.timestamps == old(limiter.timestamps)
        && errors == old(errors) && rateLimited == old(rateLimited) && !submitted
        && submitEvents == old(submitEvents))
      ensures !isBot && old(limiter.IsRateLimited("query", 3, 60000, now)) ==> (
        && limiter.timestamps == old(limiter.timestamps)
        && rateLimited && errors == old(errors) && !submitted && submitEvents == old(submitEvents))
      ensures !isBot && !old(limiter.IsRateLimited("query", 3, 60000, now)) ==> (
        && limiter.timestamps == old(limiter.timestamps)["query" := Recent(old(limiter.Stored("query")), now, 60000) + [now]]
        && errors == validate(Clean(input))
        && (submitted <==> errors == map[])
        && rateLimited == old(rateLimited)
        && submitEvents == old(submitEvents) + (if submitted then 1 else 0))
    {
      if !isBot {
        var ok := limiter.CanSubmit("query", 3, 60000, now);
        if !ok {
          rateLimited := true;
        } else {
          var errs := validate(Clean(input));
          errors := errs;
          if errs == map[] {
            submitEvents := submitEvents + 1;
            submitted := true;
          }
        }
      }
    }

    /** "Submit Another Query": back to an empty form; the form stays started. */
    method SubmitAnother()
      requires Valid()
      modifies this
      ensures Valid() && !submitted && errors == map[]
      ensures rateLimited == old(rateLimited) && formStarted == old(formStarted)
      ensures startEvents == old(startEvents) && submitEvents == old(submitEvents)
    {
      submitted := false;
      errors := map[];
    }
  }
}
