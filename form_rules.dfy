/**
 * The checks the contact, query and careers pages run on a submitted
 * form. Each page's `validate` is a run of `if (<field fails>) errs.<field>
 * = "<message>"` statements; here each statement is a `Rule` (a field, the
 * test it must pass, the reason shown when it does not), a page's checks
 * are its rules in order, and the error record is what running them in
 * that order builds: a failing rule writes its field's entry, so a later
 * failing rule for the same field replaces the earlier one. Lengths are
 * JavaScript's `.length`, counted in UTF-16 code units, so a character
 * above U+FFFF, such as an emoji, counts twice.
 */
module FormRules {
  import opened Wrappers
  import opened Strings
  import opened Security

  /** The tests the pages apply to one field's (sanitized) text. */
  datatype Test =
    | MinTrimmed(n: nat)  // missing, or fewer than `n` UTF-16 code units once trimmed
    | MaxLength(n: nat)   // more than `n` UTF-16 code units (`checkLength(v || "", n)` fails)
    | ValidEmail          // missing, or refused by `isValidEmail`
    | OptionalPhone       // given, and refused by `isValidPhone`
    | RequiredPhone       // missing, or refused by `isValidPhone`
    | Required            // missing

  datatype Rule = Rule(field: Field, test: Test, reason: Reason)

  /** The test fails on the field's text; "" is how a missing field reads. */
  predicate Fails(t: Test, v: string) {
    match t
    case MinTrimmed(n) => v == [] || Utf16Length(Trim(v)) < n
    case MaxLength(n) => !CheckLength(v, n)
    case ValidEmail => v == [] || !IsValidEmail(v)
    case OptionalPhone => v != [] && !IsValidPhone(v)
    case RequiredPhone => v == [] || !IsValidPhone(v)
    case Required => v == []
  }

  /** A missing field fails every test except a length limit and an optional phone. */
  lemma FailsWhenMissing(t: Test)
    ensures Fails(t, "") <==> !t.MaxLength? && !t.OptionalPhone?
  {
    if t.MinTrimmed? {
      TrimUnchanged("");
    }
  }

  /** The submitted form: the text of each field the form holds. */
  type FormData = map<Field, string>

  /** `fd.get(name) || ""`: a field the form does not hold reads as "". */
  function Value(d: FormData, f: Field): (v: string)
    ensures f in d ==> v == d[f]
    ensures f !in d ==> v == []
  {
    if f in d then d[f] else ""
  }

  /** The error record the rules build, run in order. */
  function Errors(rules: seq<Rule>, d: FormData): map<Field, Reason>
    decreases |rules|
  {
    if rules == [] then map[]
    else
      var m := Errors(rules[..|rules| - 1], d);
      var r := rules[|rules| - 1];
      if Fails(r.test, Value(d, r.field)) then m[r.field := r.reason] else m
  }

  /** Some rule for field `f` fails on the form. */
  predicate SomeRuleFails(rules: seq<Rule>, d: FormData, f: Field) {
    exists i :: 0 <= i < |rules| && rules[i].field == f && Fails(rules[i].test, Value(d, f))
  }

  /** A field has an entry exactly when one of its rules fails. */
  lemma {:induction false} ErrorKeys(rules: seq<Rule>, d: FormData, f: Field)
    ensures f in Errors(rules, d) <==> SomeRuleFails(rules, d, f)
    decreases |rules|
  {
    if rules != [] {
      var init, r := rules[..|rules| - 1], rules[|rules| - 1];
      ErrorKeys(init, d, f);
      if SomeRuleFails(init, d, f) {
        var i :| 0 <= i < |init| && init[i].field == f && Fails(init[i].test, Value(d, f));
        assert rules[i] == init[i];
      }
      if SomeRuleFails(rules, d, f) && !(r.field == f && Fails(r.test, Value(d, f))) {
        var i :| 0 <= i < |rules| && rules[i].field == f && Fails(rules[i].test, Value(d, f));
        assert i < |init| && init[i] == rules[i];
      }
    }
  }

  /** A record entry's reason is that of the last rule for the field that fails. */
  lemma {:induction false} ErrorReason(rules: seq<Rule>, d: FormData, i: nat)
    requires i < |rules| && Fails(rules[i].test, Value(d, rules[i].field))
    requires forall j :: i < j < |rules| && rules[j].field == rules[i].field ==>
      !Fails(rules[j].test, Value(d, rules[i].field))
    ensures rules[i].field in Errors(rules, d)
    ensures Errors(rules, d)[rules[i].field] == rules[i].reason
    decreases |rules|
  {
    var init := rules[..|rules| - 1];
    if i < |rules| - 1 {
      assert init[i] == rules[i];
      ErrorReason(init, d, i);
    }
  }

  /** A field with a single rule has an entry exactly when that rule fails. */
  lemma OnlyRule(rules: seq<Rule>, d: FormData, i: nat)
    requires i < |rules|
    requires forall j :: 0 <= j < |rules| && j != i ==> rules[j].field != rules[i].field
    ensures var f := rules[i].field;
      (f in Errors(rules, d) <==> Fails(rules[i].test, Value(d, f)))
      && (f in Errors(rules, d) ==> Errors(rules, d)[f] == rules[i].reason)
  {
    ErrorKeys(rules, d, rules[i].field);
    if Fails(rules[i].test, Value(d, rules[i].field)) {
      ErrorReason(rules, d, i);
    }
  }

  /**
   * A field with two rules, `i` before `k`, has an entry when either
   * fails, and then the reason of `k` if it failed, else that of `i`.
   */
  lemma TwoRules(rules: seq<Rule>, d: FormData, i: nat, k: nat)
    requires i < k < |rules| && rules[k].field == rules[i].field
    requires forall j :: 0 <= j < |rules| && j != i && j != k ==> rules[j].field != rules[i].field
    ensures var f, v := rules[i].field, Value(d, rules[i].field);
      (f in Errors(rules, d) <==> Fails(rules[i].test, v) || Fails(rules[k].test, v))
      && (f in Errors(rules, d) ==> Errors(rules, d)[f] == if Fails(rules[k].test, v) then rules[k].reason else rules[i].reason)
  {
    var f, v := rules[i].field, Value(d, rules[i].field);
    ErrorKeys(rules, d, f);
    if Fails(rules[k].test, v) {
      ErrorReason(rules, d, k);
    } else if Fails(rules[i].test, v) {
      ErrorReason(rules, d, i);
    }
  }

  /** With a positive minimum, a missing field and a short one fail alike. */
  lemma MinTrimmedReads(n: nat, v: string)
    requires n > 0
    ensures Fails(MinTrimmed(n), v) <==> Utf16Length(Trim(v)) < n
  {
    TrimUnchanged("");
  }

  /** A missing email is simply one `isValidEmail` refuses. */
  lemma ValidEmailReads(v: string)
    ensures Fails(ValidEmail, v) <==> !IsValidEmail(v)
  {
    if v == [] {
      assert FirstIndex(v, '@').None?;
    }
  }

  /** The record holds only fields some rule is about. */
  lemma ErrorFields(rules: seq<Rule>, d: FormData)
    ensures forall f :: f in Errors(rules, d) ==> exists i :: 0 <= i < |rules| && rules[i].field == f
  {
    forall f | f in Errors(rules, d)
      ensures exists i :: 0 <= i < |rules| && rules[i].field == f
    {
      ErrorKeys(rules, d, f);
    }
  }

  /** `validateContactForm`, the shared library check, flags field `f` of the form. */
  predicate LibraryFlags(d: FormData, f: Field) {
    HasError(ValidateContactForm(Value(d, Name), Value(d, Email), Some(Value(d, Phone)), Value(d, Message)), f)
  }

  /** Field by field, the library flags exactly the checks it makes that fail. */
  lemma LibraryField(d: FormData, f: Field)
    ensures LibraryFlags(d, f) <==> ContactFieldFails(f, Value(d, Name), Value(d, Email), Some(Value(d, Phone)), Value(d, Message))
  {
    ContactFormFieldErrors(Value(d, Name), Value(d, Email), Some(Value(d, Phone)), Value(d, Message), f);
  }

  /** The library flags the message exactly when `MessageOk` refuses it. */
  lemma LibraryMessage(d: FormData)
    ensures LibraryFlags(d, Message) <==> !MessageOk(Value(d, Message))
  {
    MessageErrors(Value(d, Name), Value(d, Email), Some(Value(d, Phone)), Value(d, Message));
  }

  /** Every field of the form passed through `sanitize`. */
  function Clean(d: FormData): (c: FormData)
    ensures c.Keys == d.Keys
  {
    map f | f in d :: Sanitized(d[f])
  }

  /**
   * The page sanitizes `fd.get(name) || ""`; a field the form does not
   * hold still reads as "" once cleaned, and no cleaned field holds a
   * markup character or starts or ends with white space.
   */
  lemma CleanValue(d: FormData, f: Field)
    ensures Value(Clean(d), f) == Sanitized(Value(d, f))
    ensures forall c :: c in Value(Clean(d), f) ==> !IsMarkupChar(c)
    ensures var v := Value(Clean(d), f); v == [] || (!IsJsSpace(v[0]) && !IsJsSpace(v[|v| - 1]))
  {
    if f !in d {
      SanitizedEmpty();
    }
    SanitizeOutput(Value(d, f));
  }

  /** The empty text sanitizes to itself. */
  lemma SanitizedEmpty()
    ensures Sanitized("") == ""
  {
    assert Escape("") == "";
    assert ApplyPatterns("", Patterns) == "";
    TrimUnchanged("");
  }
}
