/**
 * The contact page's form: its own field checks, and the submit handler
 * that turns bots away silently, then asks the rate limiter for a slot,
 * then cleans and checks the fields, and shows the thank-you panel only
 * when nothing is wrong.
 */
module ContactPage {
  import opened Wrappers
  import opened Strings
  import opened Security
  import opened FormRules

  /**
   * The page's `validate`: name, subject and message need 2, 3 and 10
   * characters after trimming, the email must be valid, a phone is
   * optional, and a message over 5000 characters is too long.
   */
  const ContactRules: seq<Rule> := [
    Rule(Name, MinTrimmed(2), TooShort),
    Rule(Email, ValidEmail, Invalid),
    Rule(Phone, OptionalPhone, Invalid),
    Rule(Subject, MinTrimmed(3), TooShort),
    Rule(Message, MinTrimmed(10), TooShort),
    Rule(Message, MaxLength(5000), TooLong)
  ]

  /** Only the five fields the rules are about can have an error. */
  lemma ContactErrorFields(d: FormData)
    ensures Errors(ContactRules, d).Keys <= {Name, Email, Phone, Subject, Message}
  {
    ErrorFields(ContactRules, d);
  }

  /** The name needs at least 2 characters once trimmed; a missing name has none. */
  lemma ContactNameCheck(d: FormData)
    ensures var errs := Errors(ContactRules, d);
      (Name in errs <==> Utf16Length(Trim(Value(d, Name))) < 2) && (Name in errs ==> errs[Name] == TooShort)
  {
    OnlyRule(ContactRules, d, 0);
    MinTrimmedReads(2, Value(d, Name));
  }

  /** The email must be one `isValidEmail` accepts. */
  lemma ContactEmailCheck(d: FormData)
    ensures var errs := Errors(ContactRules, d);
      (Email in errs <==> !IsValidEmail(Value(d, Email))) && (Email in errs ==> errs[Email] == Invalid)
  {
    OnlyRule(ContactRules, d, 1);
    ValidEmailReads(Value(d, Email));
  }

  /** A phone is optional; one that is given must be valid. */
  lemma ContactPhoneCheck(d: FormData)
    ensures var errs := Errors(ContactRules, d);
      (Phone in errs <==> Value(d, Phone) != [] && !IsValidPhone(Value(d, Phone)))
      && (Phone in errs ==> errs[Phone] == Invalid)
  {
    OnlyRule(ContactRules, d, 2);
  }

  /** The subject needs at least 3 characters once trimmed. */
  lemma ContactSubjectCheck(d: FormData)
    ensures var errs := Errors(ContactRules, d);
      (Subject in errs <==> Utf16Length(Trim(Value(d, Subject))) < 3) && (Subject in errs ==> errs[Subject] == TooShort)
  {
    OnlyRule(ContactRules, d, 3);
    MinTrimmedReads(3, Value(d, Subject));
  }

  /**
   * The message needs at least 10 characters once trimmed and at most
   * 5000; the too-long error replaces the too-short one.
   */
  lemma ContactMessageCheck(d: FormData)
    ensures var errs, m := Errors(ContactRules, d), Value(d, Message);
      (Message in errs <==> Utf16Length(Trim(m)) < 10 || Utf16Length(m) > 5000)
      && (Message in errs ==> errs[Message] == if Utf16Length(m) > 5000 then TooLong else TooShort)
  {
    TwoRules(ContactRules, d, 4, 5);
    MinTrimmedReads(10, Value(d, Message));
  }

  /**
   * Five thumbs-up emoji are ten code units, so the message check passes
   * although the text holds only five characters.
   */
  lemma EmojiMessageAccepted(d: FormData)
    requires Value(d, Message) == ['\U{1F44D}', '\U{1F44D}', '\U{1F44D}', '\U{1F44D}', '\U{1F44D}']
    ensures Message !in Errors(ContactRules, d)
  {
    var m := Value(d, Message);
    TrimUnchanged(m);
    AstralLength();
    ContactMessageCheck(d);
  }

  /** Within the library's 100-character limit, the page and the library agree on the name. */
  lemma AgreesOnName(d: FormData)
    requires Utf16Length(Value(d, Name)) <= 100
    ensures Name in Errors(ContactRules, d) <==> LibraryFlags(d, Name)
  {
    LibraryField(d, Name);
    ContactNameCheck(d);
  }

  /**
   * Above 100 characters they part: a name the page accepts, because it
   * has 2 characters once trimmed, is one the library refuses.
   */
  lemma NameDisagreement(d: FormData)
    requires Utf16Length(Value(d, Name)) > 100 && Utf16Length(Trim(Value(d, Name))) >= 2
    ensures Name !in Errors(ContactRules, d) && LibraryFlags(d, Name)
  {
    LibraryField(d, Name);
    ContactNameCheck(d);
  }

  lemma AgreesOnEmail(d: FormData)
    ensures Email in Errors(ContactRules, d) <==> LibraryFlags(d, Email)
  {
    LibraryField(d, Email);
    ContactEmailCheck(d);
  }

  lemma AgreesOnPhone(d: FormData)
    ensures Phone in Errors(ContactRules, d) <==> LibraryFlags(d, Phone)
  {
    LibraryField(d, Phone);
    ContactPhoneCheck(d);
  }

  lemma AgreesOnMessage(d: FormData)
    ensures Message in Errors(ContactRules, d) <==> LibraryFlags(d, Message)
  {
    LibraryMessage(d);
    ContactMessageCheck(d);
  }

  class ContactForm {
    /** The page's `validate` closure: the check it runs on the cleaned form. */
    const validate: FormData -> map<Field, Reason>
    var submitted: bool
    var errors: map<Field, Reason>
    var rateLimited: bool
    /** How many `form_submit` analytics events the page has sent. */
    var submitEvents: nat

    constructor ()
      ensures forall d :: validate(d) == Errors(ContactRules, d)
      ensures !submitted && errors == map[] && !rateLimited && submitEvents == 0
    {
      validate := d => Errors(ContactRules, d);
      submitted := false;
      errors := map[];
      rateLimited := false;
      submitEvents := 0;
    }

    /**
     * `handleSubmit`; the form is only on screen before a submission
     * succeeds. A bot changes nothing. A refused slot shows the
     * rate-limit notice and stops. Otherwise the slot is used up whatever
     * follows, the errors are replaced by those of the cleaned form, and
     * the page counts as submitted exactly when there are none.
     */
    method HandleSubmit(limiter: RateLimiter, isBot: bool, now: int, input: FormData)
      requires !submitted
      modifies this, limiter
      ensures isBot ==> (
        && limiter.timestamps == old(limiter.timestamps)
        && errors == old(errors) && rateLimited == old(rateLimited) && !submitted
        && submitEvents == old(submitEvents))
      ensures !isBot && old(limiter.IsRateLimited("contact", 3, 60000, now)) ==> (
        && limiter.timestamps == old(limiter.timestamps)
        && rateLimited && errors == old(errors) && !submitted && submitEvents == old(submitEvents))
      ensures !isBot && !old(limiter.IsRateLimited("contact", 3, 60000, now)) ==> (
        && limiter.timestamps == old(limiter.timestamps)["contact" := Recent(old(limiter.Stored("contact")), now, 60000) + [now]]
        && errors == validate(Clean(input))
        && (submitted <==> errors == map[])
        && rateLimited == old(rateLimited)
        && submitEvents == old(submitEvents) + (if submitted then 1 else 0))
    {
      if !isBot {
        var ok := limiter.CanSubmit("contact", 3, 60000, now);
        if !ok {
          rateLimited := true;
        } else {
          var errs := validate(Clean(input));
          errors := errs;
          if errs == map[] {
            submitEvents := submitEvents + 1;
            submitted := true;
          }
        }
      }
    }

    /** "Send Another": back to an empty form. */
    method SendAnother()
      modifies this
      ensures !submitted && errors == map[]
      ensures rateLimited == old(rateLimited) && submitEvents == old(submitEvents)
    {
      submitted := false;
      errors := map[];
    }
  }
}
