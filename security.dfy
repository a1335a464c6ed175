/**
 * Client-side form security: HTML escaping and deletion of dangerous
 * patterns (`sanitize`), the e-mail and Indian phone recognisers, the
 * per-form sliding-window rate limiter, and the contact-form validator.
 */
module Security {
  import opened Wrappers
  import opened Strings

  // ---------------------------------------------------------------------
  // Escaping

  /** What each character becomes once escaped. */
  function EscapeChar(c: char): string {
    if c == '&' then "&amp;"
    else if c == '<' then "&lt;"
    else if c == '>' then "&gt;"
    else if c == '"' then "&quot;"
    else if c == '\'' then "&#x27;"
    else [c]
  }

  /** Escaping as a per-character map: the reference for `Escape`. */
  function EscapeEach(s: string): string
    decreases |s|
  {
    if s == [] then [] else EscapeChar(s[0]) + EscapeEach(s[1..])
  }

  /** The five chained global replacements that open `sanitize`, `&` first. */
  function Escape(s: string): string {
    ReplaceAllChar(ReplaceAllChar(ReplaceAllChar(ReplaceAllChar(ReplaceAllChar(
      s, '&', "&amp;"), '<', "&lt;"), '>', "&gt;"), '"', "&quot;"), '\'', "&#x27;")
  }

  lemma EscapeAppend(a: string, b: string)
    ensures Escape(a + b) == Escape(a) + Escape(b)
  {
    var a1, b1 := ReplaceAllChar(a, '&', "&amp;"), ReplaceAllChar(b, '&', "&amp;");
    ReplaceAllCharAppend(a, b, '&', "&amp;");
    var a2, b2 := ReplaceAllChar(a1, '<', "&lt;"), ReplaceAllChar(b1, '<', "&lt;");
    ReplaceAllCharAppend(a1, b1, '<', "&lt;");
    var a3, b3 := ReplaceAllChar(a2, '>', "&gt;"), ReplaceAllChar(b2, '>', "&gt;");
    ReplaceAllCharAppend(a2, b2, '>', "&gt;");
    var a4, b4 := ReplaceAllChar(a3, '"', "&quot;"), ReplaceAllChar(b3, '"', "&quot;");
    ReplaceAllCharAppend(a3, b3, '"', "&quot;");
    ReplaceAllCharAppend(a4, b4, '\'', "&#x27;");
  }

  lemma EscapeOneChar(c: char)
    ensures Escape([c]) == EscapeChar(c)
  {
    if c == '&' {
      ReplaceAllCharSingle(c, '&', "&amp;");
      EscapeRestAbsent("&amp;", 1);
    } else if c == '<' {
      ReplaceAllCharSingle(c, '&', "&amp;");
      ReplaceAllCharSingle(c, '<', "&lt;");
      EscapeRestAbsent("&lt;", 2);
    } else if c == '>' {
      ReplaceAllCharSingle(c, '&', "&amp;");
      ReplaceAllCharSingle(c, '<', "&lt;");
      ReplaceAllCharSingle(c, '>', "&gt;");
      EscapeRestAbsent("&gt;", 3);
    } else if c == '"' {
      ReplaceAllCharSingle(c, '&', "&amp;");
      ReplaceAllCharSingle(c, '<', "&lt;");
      ReplaceAllCharSingle(c, '>', "&gt;");
      ReplaceAllCharSingle(c, '"', "&quot;");
      EscapeRestAbsent("&quot;", 4);
    } else {
      ReplaceAllCharSingle(c, '&', "&amp;");
      ReplaceAllCharSingle(c, '<', "&lt;");
      ReplaceAllCharSingle(c, '>', "&gt;");
      ReplaceAllCharSingle(c, '"', "&quot;");
      ReplaceAllCharSingle(c, '\'', "&#x27;");
    }
  }

  /** The replacements after the `k`-th leave an entity written by it untouched. */
  lemma EscapeRestAbsent(e: string, k: nat)
    requires 1 <= k <= 4
    requires forall c :: c in e ==> c == '&' || c == '#' || c == ';' || IsAsciiLetter(c) || IsDigit(c)
    ensures k <= 1 ==> ReplaceAllChar(e, '<', "&lt;") == e
    ensures k <= 2 ==> ReplaceAllChar(e, '>', "&gt;") == e
    ensures k <= 3 ==> ReplaceAllChar(e, '"', "&quot;") == e
    ensures ReplaceAllChar(e, '\'', "&#x27;") == e
  {
    ReplaceAllCharAbsent(e, '<', "&lt;");
    ReplaceAllCharAbsent(e, '>', "&gt;");
    ReplaceAllCharAbsent(e, '"', "&quot;");
    ReplaceAllCharAbsent(e, '\'', "&#x27;");
  }

  /**
   * Because `&` is replaced first, the chained replacements escape each
   * character exactly once.
   */
  lemma {:induction false} EscapeIsPerChar(s: string)
    ensures Escape(s) == EscapeEach(s)
    decreases |s|
  {
    if s != [] {
      EscapeIsPerChar(s[1..]);
      assert s == [s[0]] + s[1..];
      EscapeAppend([s[0]], s[1..]);
      EscapeOneChar(s[0]);
    }
  }

  predicate IsMarkupChar(c: char) {
    c == '<' || c == '>' || c == '"' || c == '\''
  }

  lemma {:induction false} EscapeEachNoMarkup(s: string)
    ensures forall c :: c in EscapeEach(s) ==> !IsMarkupChar(c)
    decreases |s|
  {
    if s != [] {
      EscapeEachNoMarkup(s[1..]);
    }
  }

  // ---------------------------------------------------------------------
  // The dangerous patterns

  /**
   * One element of a pattern. `Lit` matches its lower-case text ignoring
   * ASCII case (the `i` flag without `u`); `WordRun` is `\w+`, `Spaces` is
   * `\s*`, `Boundary` is `\b`, and `UpToGt` is `[^>]*>`. In every pattern a
   * greedy run is followed by characters outside its class, so the greedy
   * match is the only one and no backtracking is needed.
   */
  datatype Elem = Lit(text: string) | WordRun | Spaces | Boundary | UpToGt

  /** `<script\b[^>]*>` */
  const ScriptTag: seq<Elem> := [Lit("<script"), Boundary, UpToGt]
  /** `javascript:` */
  const JsScheme: seq<Elem> := [Lit("javascript:")]
  /** `on\w+\s*=` */
  const EventAttr: seq<Elem> := [Lit("on"), WordRun, Spaces, Lit("=")]
  /** `data:\s*text\/html` */
  const DataHtml: seq<Elem> := [Lit("data:"), Spaces, Lit("text/html")]
  /** `<iframe\b` */
  const IframeTag: seq<Elem> := [Lit("<iframe"), Boundary]
  /** `<object\b` */
  const ObjectTag: seq<Elem> := [Lit("<object"), Boundary]
  /** `<embed\b` */
  const EmbedTag: seq<Elem> := [Lit("<embed"), Boundary]
  /** `eval\s*\(` */
  const EvalCall: seq<Elem> := [Lit("eval"), Spaces, Lit("(")]
  /** `expression\s*\(` */
  const ExpressionCall: seq<Elem> := [Lit("expression"), Spaces, Lit("(")]

  /** `DANGEROUS_PATTERNS`, in order. */
  const Patterns: seq<seq<Elem>> :=
    [ScriptTag, JsScheme, EventAttr, DataHtml, IframeTag, ObjectTag, EmbedTag, EvalCall, ExpressionCall]

  /** `w` occurs at `i`, ignoring ASCII case. */
  predicate LitAt(s: string, i: nat, w: string) {
    i + |w| <= |s| && forall k :: 0 <= k < |w| ==> LowerChar(s[i + k]) == w[k]
  }

  lemma LitAtHead(s: string, i: nat, w: string)
    requires |w| > 0
    ensures LitAt(s, i, w) ==> i < |s| && LowerChar(s[i]) == w[0]
  {
    if LitAt(s, i, w) {
      assert LowerChar(s[i + 0]) == w[0];
    }
  }

  datatype CharClass = Word | Space | NotGt

  predicate InClass(cls: CharClass, c: char) {
    match cls
    case Word => IsWordChar(c)
    case Space => IsJsSpace(c)
    case NotGt => c != '>'
  }

  /** The length of the longest run of class `cls` starting at `i`. */
  function Run(cls: CharClass, s: string, i: nat): (n: nat)
    requires i <= |s|
    ensures i + n <= |s|
    decreases |s| - i
  {
    if i < |s| && InClass(cls, s[i]) then 1 + Run(cls, s, i + 1) else 0
  }

  /** The run is all of class `cls`, and the character after it is not. */
  lemma {:induction false} RunSpec(cls: CharClass, s: string, i: nat)
    requires i <= |s|
    ensures forall k :: i <= k < i + Run(cls, s, i) ==> InClass(cls, s[k])
    ensures i + Run(cls, s, i) == |s| || !InClass(cls, s[i + Run(cls, s, i)])
    decreases |s| - i
  {
    if i < |s| && InClass(cls, s[i]) {
      RunSpec(cls, s, i + 1);
    }
  }

  /** `\b` at `i`: exactly one of the characters either side is a word character. */
  predicate AtBoundary(s: string, i: nat)
    requires i <= |s|
  {
    (i > 0 && IsWordChar(s[i - 1])) != (i < |s| && IsWordChar(s[i]))
  }

  /** Where a match of `es` starting at `i` ends, if there is one. */
  function MatchEnd(es: seq<Elem>, s: string, i: nat): (r: Option<nat>)
    requires i <= |s|
    ensures r.Some? ==> i <= r.value <= |s|
    decreases |es|
  {
    if es == [] then Some(i)
    else
      match es[0]
      case Lit(w) => if LitAt(s, i, w) then MatchEnd(es[1..], s, i + |w|) else None
      case WordRun =>
        var n := Run(Word, s, i);
        if n >= 1 then MatchEnd(es[1..], s, i + n) else None
      case Spaces => MatchEnd(es[1..], s, i + Run(Space, s, i))
      case Boundary => if AtBoundary(s, i) then MatchEnd(es[1..], s, i) else None
      case UpToGt =>
        var n := Run(NotGt, s, i);
        if i + n < |s| then MatchEnd(es[1..], s, i + n + 1) else None
  }

  /** No non-empty match of `p` starts at `j`. */
  predicate NoMatchAt(p: seq<Elem>, s: string, j: nat)
    requires j <= |s|
  {
    MatchEnd(p, s, j).None? || MatchEnd(p, s, j).value == j
  }

  /**
   * `s.replace(p, "")` with the `g` flag, from index `i`: at each index a
   * match is deleted and the scan resumes after it; otherwise the character
   * is kept.
   */
  function DeleteFrom(p: seq<Elem>, s: string, i: nat): (r: string)
    requires i <= |s|
    ensures |r| <= |s| - i
    ensures forall c :: c in r ==> c in s[i..]
    decreases |s| - i
  {
    if i == |s| then []
    else
      var m := MatchEnd(p, s, i);
      if m.Some? && m.value > i then DeleteFrom(p, s, m.value)
      else
        var rest := DeleteFrom(p, s, i + 1);
        assert forall c :: c in rest ==> c in s[i..] by {
          assert s[i + 1..] == s[i..][1..];
        }
        [s[i]] + rest
  }

  function DeleteAll(p: seq<Elem>, s: string): string {
    DeleteFrom(p, s, 0)
  }

  /** Where no match starts, the scan keeps the character and moves on. */
  lemma DeleteFromKeeps(p: seq<Elem>, s: string, i: nat)
    requires i < |s| && NoMatchAt(p, s, i)
    ensures DeleteFrom(p, s, i) == [s[i]] + DeleteFrom(p, s, i + 1)
  {
  }

  lemma {:induction false} DeleteFromNoMatch(p: seq<Elem>, s: string, i: nat)
    requires i <= |s|
    requires forall j :: i <= j < |s| ==> NoMatchAt(p, s, j)
    ensures DeleteFrom(p, s, i) == s[i..]
    decreases |s| - i
  {
    if i < |s| {
      DeleteFromKeeps(p, s, i);
      DeleteFromNoMatch(p, s, i + 1);
      assert s[i..] == [s[i]] + s[i + 1..];
    }
  }

  /** The patterns applied one after another, each as a single global pass. */
  function ApplyPatterns(s: string, ps: seq<seq<Elem>>): (r: string)
    ensures |r| <= |s|
    ensures forall c :: c in r ==> c in s
    decreases |ps|
  {
    if ps == [] then s
    else
      var t := DeleteAll(ps[0], s);
      assert s[0..] == s;
      ApplyPatterns(t, ps[1..])
  }

  /** What `sanitize` returns. */
  function Sanitized(input: string): string {
    Trim(ApplyPatterns(Escape(input), Patterns))
  }

  /** `sanitize`: escape, then the loop over the patterns, then `trim`. */
  method Sanitize(input: string) returns (clean: string)
    ensures clean == Sanitized(input)
  {
    clean := Escape(input);
    for k := 0 to |Patterns|
      invariant ApplyPatterns(clean, Patterns[k..]) == ApplyPatterns(Escape(input), Patterns)
    {
      assert Patterns[k..][1..] == Patterns[k + 1..];
      clean := DeleteAll(Patterns[k], clean);
    }
    clean := Trim(clean);
  }

  // ---------------------------------------------------------------------
  // Properties of sanitize

  /**
   * The output holds no `<`, `>`, `"` or `'`, and neither starts nor ends
   * with white space: escaping removes the four characters, and the later
   * steps only delete.
   */
  lemma SanitizeOutput(input: string)
    ensures forall c :: c in Sanitized(input) ==> !IsMarkupChar(c)
    ensures var r := Sanitized(input); r == [] || (!IsJsSpace(r[0]) && !IsJsSpace(r[|r| - 1]))
  {
    EscapeIsPerChar(input);
    EscapeEachNoMarkup(input);
    var t := ApplyPatterns(Escape(input), Patterns);
    forall c | c in Sanitized(input) ensures !IsMarkupChar(c) {
      var a, b :| TrimmedAt(t, Sanitized(input), a, b);
      assert c in t;
    }
  }

  /** A pattern whose first element is a literal starting with `<`. */
  predicate TagAnchored(p: seq<Elem>) {
    |p| > 0 && p[0].Lit? && |p[0].text| > 0 && p[0].text[0] == '<'
  }

  /**
   * The four `<`-anchored patterns never match text without `<`, which is
   * all the text escaping leaves: their deletion passes change nothing.
   */
  lemma TagPatternsInert(p: seq<Elem>, s: string)
    requires TagAnchored(p)
    requires '<' !in s
    ensures forall j :: 0 <= j <= |s| ==> MatchEnd(p, s, j).None?
    ensures DeleteAll(p, s) == s
  {
    DeleteFromNoMatch(p, s, 0);
  }

  lemma TagPatternsAnchored()
    ensures TagAnchored(ScriptTag) && TagAnchored(IframeTag) && TagAnchored(ObjectTag) && TagAnchored(EmbedTag)
  {
  }

  /** A pattern whose leading literal's first letter occurs nowhere in `s` changes nothing. */
  lemma AbsentLeadUnchanged(p: seq<Elem>, s: string)
    requires |p| > 0 && p[0].Lit? && |p[0].text| > 0
    requires forall k :: 0 <= k < |s| ==> LowerChar(s[k]) != p[0].text[0]
    ensures DeleteAll(p, s) == s
  {
    forall j | 0 <= j < |s| ensures NoMatchAt(p, s, j) {
      LitAtHead(s, j, p[0].text);
    }
    DeleteFromNoMatch(p, s, 0);
  }

  /** The first letters of the nine patterns' leading literals. */
  const Leads: set<char> := {'<', 'j', 'o', 'd', 'e'}

  /** `p` starts with a literal whose first letter is in `leads`. */
  predicate HasLead(p: seq<Elem>, leads: set<char>) {
    |p| > 0 && p[0].Lit? && |p[0].text| > 0 && p[0].text[0] in leads
  }

  lemma PatternsLeads()
    ensures forall p :: p in Patterns ==> HasLead(p, Leads)
    ensures forall p :: p in Patterns[2..] ==> HasLead(p, Leads - {'j'})
  {
  }

  /** Text none of whose characters lower-cases to a lead letter passes every pattern unchanged. */
  lemma {:induction false} NoLeadsUnchanged(s: string, ps: seq<seq<Elem>>, leads: set<char>)
    requires forall p :: p in ps ==> HasLead(p, leads)
    requires AvoidsLeads(s, leads)
    ensures ApplyPatterns(s, ps) == s
    decreases |ps|
  {
    if ps != [] {
      assert HasLead(ps[0], leads);
      AbsentLeadUnchanged(ps[0], s);
      NoLeadsUnchanged(s, ps[1..], leads);
    }
  }

  /** No character of `s` is markup or `&`. */
  predicate Unescaped(s: string) {
    forall k :: 0 <= k < |s| ==> !IsMarkupChar(s[k]) && s[k] != '&'
  }

  lemma {:induction false} EscapeEachPlain(s: string)
    requires Unescaped(s)
    ensures EscapeEach(s) == s
    decreases |s|
  {
    if s != [] {
      assert Unescaped(s[1..]) by {
        forall k | 0 <= k < |s[1..]| ensures !IsMarkupChar(s[1..][k]) && s[1..][k] != '&' {
          assert s[1..][k] == s[k + 1];
        }
      }
      EscapeEachPlain(s[1..]);
      assert s == [s[0]] + s[1..];
    }
  }

  /** No character of `s` lower-cases to a letter of `leads`. */
  predicate AvoidsLeads(s: string, leads: set<char>) {
    forall k :: 0 <= k < |s| ==> LowerChar(s[k]) !in leads
  }

  /**
   * Escaped text that neither starts nor ends with white space and holds no
   * character that lower-cases to a lead letter comes out of `sanitize` as
   * escaped.
   */
  lemma SanitizedPlain(input: string, escaped: string)
    requires EscapeEach(input) == escaped
    requires AvoidsLeads(escaped, Leads)
    requires escaped == [] || (!IsJsSpace(escaped[0]) && !IsJsSpace(escaped[|escaped| - 1]))
    ensures Sanitized(input) == escaped
  {
    EscapeIsPerChar(input);
    PatternsLeads();
    NoLeadsUnchanged(escaped, Patterns, Leads);
    TrimUnchanged(escaped);
  }

  /**
   * `sanitize` is not idempotent: "&" becomes "&amp;", and sanitizing that
   * again gives "&amp;amp;".
   */
  lemma SanitizeNotIdempotent(amp: string)
    requires amp == "&"
    ensures Sanitized(amp) == "&amp;"
    ensures Sanitized(Sanitized(amp)) == "&amp;amp;"
  {
    AmpersandFacts();
    assert EscapeEach(amp) == "&amp;";
    SanitizedPlain(amp, "&amp;");
    SanitizedPlain(Sanitized(amp), "&amp;amp;");
  }

  lemma AmpersandFacts()
    ensures EscapeEach("&") == "&amp;" && EscapeEach("&amp;") == "&amp;amp;"
    ensures AvoidsLeads("&amp;", Leads) && AvoidsLeads("&amp;amp;", Leads)
  {
  }

  // ---------------------------------------------------------------------
  // Single-pass deletion can reassemble a pattern

  /**
   * "javajavascript:script:" holds one "javascript:"; deleting it joins
   * the pieces around it into a new one, which the single pass leaves.
   */
  lemma SinglePassLeavesPattern(s: string)
    requires s == "javajavascript:script:"
    ensures Sanitized(s) == "javascript:"
    ensures MatchEnd(JsScheme, Sanitized(s), 0) == Some(11)
  {
    ReassembledPlain();
    ReassembledMatches();
    SourceUnescaped();
    JsSchemeOnce(s);
    SecondPassOnly(s, DeleteAll(JsScheme, s));
  }

  /**
   * Text with nothing to escape and no `<`, whose `javascript:` pass leaves
   * text the other passes and `trim` do not touch, comes out as that text.
   */
  lemma SecondPassOnly(s: string, t: string)
    requires Unescaped(s) && '<' !in s
    requires t == DeleteAll(JsScheme, s)
    requires AvoidsLeads(t, Leads - {'j'})
    requires t == [] || (!IsJsSpace(t[0]) && !IsJsSpace(t[|t| - 1]))
    ensures Sanitized(s) == t
  {
    EscapeEachPlain(s);
    EscapeIsPerChar(s);
    FirstTwoPasses(s, t);
    TrimUnchanged(t);
  }

  /** The reassembled text neither starts nor ends with white space, and has no lead letter but `j`. */
  lemma ReassembledPlain()
    ensures !IsJsSpace("javascript:"[0]) && !IsJsSpace("javascript:"[10])
    ensures AvoidsLeads("javascript:", Leads - {'j'})
  {
  }

  lemma ReassembledMatches()
    ensures MatchEnd(JsScheme, "javascript:", 0) == Some(11)
  {
    assert LitAt("javascript:", 0, "javascript:");
  }

  lemma SourceUnescaped()
    ensures Unescaped("javajavascript:script:")
  {
  }

  lemma SourceHoldsScheme()
    ensures LitAt("javajavascript:script:", 4, "javascript:")
  {
  }

  /** After the first two passes, the remaining seven leave lead-free text alone. */
  lemma FirstTwoPasses(s: string, t: string)
    requires '<' !in s
    requires t == DeleteAll(JsScheme, s)
    requires AvoidsLeads(t, Leads - {'j'})
    ensures ApplyPatterns(s, Patterns) == t
  {
    TagPatternsInert(ScriptTag, s);
    var rest := Patterns[2..];
    assert Patterns == [ScriptTag, JsScheme] + rest;
    assert Patterns[1..] == [JsScheme] + rest;
    PatternsLeads();
    NoLeadsUnchanged(t, rest, Leads - {'j'});
  }

  lemma LitMismatch(es: seq<Elem>, s: string, k: nat)
    requires k <= |s| && es != [] && es[0].Lit? && !LitAt(s, k, es[0].text)
    ensures MatchEnd(es, s, k).None?
  {
  }

  /** Deleting from `i` keeps `s[i..j]` when no match starts in between. */
  lemma {:induction false} DeleteFromSkip(p: seq<Elem>, s: string, i: nat, j: nat)
    requires i <= j <= |s|
    requires forall k :: i <= k < j ==> NoMatchAt(p, s, k)
    ensures DeleteFrom(p, s, i) == s[i..j] + DeleteFrom(p, s, j)
    decreases j - i
  {
    if i < j {
      DeleteFromKeeps(p, s, i);
      DeleteFromSkip(p, s, i + 1, j);
      assert s[i..j] == [s[i]] + s[i + 1..j];
    }
  }

  lemma JsSchemeOnce(s: string)
    requires s == "javajavascript:script:"
    ensures DeleteAll(JsScheme, s) == "javascript:"
  {
    JsSchemeHead(s);
    DeleteFromSkip(JsScheme, s, 0, 4);
    JsSchemeMatch(s);
    JsSchemeTail(s);
    DeleteFromNoMatch(JsScheme, s, 15);
    JsSchemeJoin(s);
  }

  /** One mismatching letter rules out a `javascript:` match at `k`. */
  lemma NoSchemeAt(s: string, k: nat, d: nat)
    requires d < 11 && k + d < |s| && LowerChar(s[k + d]) != "javascript:"[d]
    ensures NoMatchAt(JsScheme, s, k)
  {
    assert !LitAt(s, k, "javascript:");
    LitMismatch(JsScheme, s, k);
  }

  lemma JsSchemeHead(s: string)
    requires s == "javajavascript:script:"
    ensures forall k :: 0 <= k < 4 ==> NoMatchAt(JsScheme, s, k)
  {
    NoSchemeAt(s, 0, 4);
    NoSchemeAt(s, 1, 0);
    NoSchemeAt(s, 2, 0);
    NoSchemeAt(s, 3, 0);
    forall k | 0 <= k < 4 ensures NoMatchAt(JsScheme, s, k) {
      assert k == 0 || k == 1 || k == 2 || k == 3;
    }
  }


  lemma JsSchemeMatch(s: string)
    requires s == "javajavascript:script:"
    ensures DeleteFrom(JsScheme, s, 4) == DeleteFrom(JsScheme, s, 15)
  {
    SourceHoldsScheme();
    assert MatchEnd(JsScheme, s, 4) == Some(15);
  }

  lemma JsSchemeTail(s: string)
    requires s == "javajavascript:script:"
    ensures forall k :: 15 <= k < |s| ==> NoMatchAt(JsScheme, s, k)
  {
    var w := "javascript:";
    forall k | 15 <= k < |s| ensures NoMatchAt(JsScheme, s, k) {
      LitAtHead(s, k, w);
      assert LowerChar(s[k]) != 'j';
      LitMismatch(JsScheme, s, k);
    }
  }

  lemma JsSchemeJoin(s: string)
    requires s == "javajavascript:script:"
    ensures s[0..4] + s[15..] == "javascript:"
  {
    assert s[0..4] == "java";
    assert s[15..] == "script:";
  }

  // ---------------------------------------------------------------------
  // Sanitizing until nothing is left to delete

  lemma {:induction false} DeleteFromSameLength(p: seq<Elem>, s: string, i: nat)
    requires i <= |s|
    requires |DeleteFrom(p, s, i)| == |s| - i
    ensures forall j :: i <= j < |s| ==> NoMatchAt(p, s, j)
    decreases |s| - i
  {
    if i < |s| {
      var m := MatchEnd(p, s, i);
      if !(m.Some? && m.value > i) {
        DeleteFromSameLength(p, s, i + 1);
      }
    }
  }

  /**
   * A round of passes that deletes nothing leaves its text as it was, and
   * then no pattern matches anywhere in it.
   */
  lemma {:induction false} ApplySameLength(s: string, ps: seq<seq<Elem>>)
    requires |ApplyPatterns(s, ps)| == |s|
    ensures ApplyPatterns(s, ps) == s
    ensures forall p, j :: p in ps && 0 <= j < |s| ==> NoMatchAt(p, s, j)
    decreases |ps|
  {
    if ps != [] {
      var t := DeleteAll(ps[0], s);
      assert |ApplyPatterns(t, ps[1..])| <= |t|;
      DeleteFromSameLength(ps[0], s, 0);
      DeleteFromNoMatch(ps[0], s, 0);
      ApplySameLength(s, ps[1..]);
      forall p, j | p in ps && 0 <= j < |s| ensures NoMatchAt(p, s, j) {
        if p != ps[0] {
          assert p in ps[1..];
        }
      }
    }
  }

  /**
   * A round (the nine passes, then `trim`) that changes nothing leaves
   * text in which no pattern matches and which neither starts nor ends
   * with white space.
   */
  lemma RoundFixedPoint(s: string, ps: seq<seq<Elem>>)
    requires Trim(ApplyPatterns(s, ps)) == s
    ensures forall p, j :: p in ps && 0 <= j < |s| ==> NoMatchAt(p, s, j)
    ensures s == [] || (!IsJsSpace(s[0]) && !IsJsSpace(s[|s| - 1]))
  {
    var x := ApplyPatterns(s, ps);
    TrimInner(x);
    assert |x| == |s|;
    ApplySameLength(s, ps);
  }

  /** A round that changes something makes the text shorter. */
  lemma RoundShrinks(s: string, ps: seq<seq<Elem>>)
    requires Trim(ApplyPatterns(s, ps)) != s
    ensures |Trim(ApplyPatterns(s, ps))| < |s|
    ensures forall c :: c in Trim(ApplyPatterns(s, ps)) ==> c in s
  {
    var x := ApplyPatterns(s, ps);
    TrimInner(x);
    if |x| == |s| {
      ApplySameLength(s, ps);
    }
  }

  /**
   * Rounds of the nine passes and `trim`, repeated until a round changes
   * nothing: the repair of `sanitize`.
   */
  function Settle(s: string): (r: string)
    ensures forall p, j :: p in Patterns && 0 <= j < |r| ==> NoMatchAt(p, r, j)
    ensures r == [] || (!IsJsSpace(r[0]) && !IsJsSpace(r[|r| - 1]))
    ensures forall c :: c in r ==> c in s
    decreases |s|
  {
    var t := Trim(ApplyPatterns(s, Patterns));
    if t == s then
      RoundFixedPoint(s, Patterns);
      s
    else
      RoundShrinks(s, Patterns);
      Settle(t)
  }

  /** `sanitize` with its rounds repeated until they settle. */
  function SanitizedSettled(input: string): string {
    Settle(Escape(input))
  }

  /**
   * The settled sanitizer's output holds no match of any dangerous pattern,
   * neither starts nor ends with white space, and, like `sanitize`'s, holds
   * no `<`, `>`, `"` or `'`.
   */
  lemma SettledIsClean(input: string)
    ensures var r := SanitizedSettled(input);
      forall p, j :: p in Patterns && 0 <= j < |r| ==> NoMatchAt(p, r, j)
    ensures var r := SanitizedSettled(input); r == [] || (!IsJsSpace(r[0]) && !IsJsSpace(r[|r| - 1]))
    ensures forall c :: c in SanitizedSettled(input) ==> !IsMarkupChar(c)
  {
    EscapeIsPerChar(input);
    EscapeEachNoMarkup(input);
  }

  /** Text the settled sanitizer returns comes back from it unchanged. */
  lemma SettleIdempotent(s: string)
    ensures Settle(Settle(s)) == Settle(s)
  {
    var r := Settle(s);
    forall p | p in Patterns ensures DeleteAll(p, r) == r {
      DeleteFromNoMatch(p, r, 0);
    }
    NoMatchUnchanged(r, Patterns);
    TrimUnchanged(r);
  }

  /** Text no pattern matches passes every pass unchanged. */
  lemma {:induction false} NoMatchUnchanged(s: string, ps: seq<seq<Elem>>)
    requires forall p :: p in ps ==> DeleteAll(p, s) == s
    ensures ApplyPatterns(s, ps) == s
    decreases |ps|
  {
    if ps != [] {
      NoMatchUnchanged(s, ps[1..]);
    }
  }

  // ---------------------------------------------------------------------
  // E-mail addresses: `^[a-zA-Z0-9._%+-]+@[a-zA-Z0-9.-]+\.[a-zA-Z]{2,}$`

  predicate LocalChar(c: char) {
    IsAsciiLetter(c) || IsDigit(c) || c == '.' || c == '_' || c == '%' || c == '+' || c == '-'
  }

  predicate DomainChar(c: char) {
    IsAsciiLetter(c) || IsDigit(c) || c == '.' || c == '-'
  }

  predicate AllLocal(s: string) { forall k :: 0 <= k < |s| ==> LocalChar(s[k]) }

  predicate AllDomain(s: string) { forall k :: 0 <= k < |s| ==> DomainChar(s[k]) }

  predicate AllLetters(s: string) { forall k :: 0 <= k < |s| ==> IsAsciiLetter(s[k]) }

  /**
   * The pattern read as a grammar: `e[..a]` is the local part, `e[a]` the
   * '@', `e[a+1..k]` the domain, `e[k]` the final '.', and `e[k+1..]` the
   * top-level label of two or more letters.
   */
  predicate EmailSplit(e: string, a: int, k: int) {
    && 0 < a && a + 1 < k && k + 3 <= |e|
    && e[a] == '@' && e[k] == '.'
    && AllLocal(e[..a]) && AllDomain(e[a + 1..k]) && AllLetters(e[k + 1..])
  }

  ghost predicate EmailShape(e: string) {
    exists a, k :: EmailSplit(e, a, k)
  }

  function FirstIndex(s: string, c: char): (r: Option<nat>)
    ensures r.Some? ==> r.value < |s| && s[r.value] == c && c !in s[..r.value]
    ensures r.None? ==> c !in s
  {
    if s == [] then None
    else if s[0] == c then Some(0)
    else
      var t := FirstIndex(s[1..], c);
      if t.None? then None
      else
        assert s[..t.value + 1] == [s[0]] + s[1..][..t.value];
        Some(t.value + 1)
  }

  function LastIndex(s: string, c: char): (r: Option<nat>)
    ensures r.Some? ==> r.value < |s| && s[r.value] == c && c !in s[r.value + 1..]
    ensures r.None? ==> c !in s
  {
    if s == [] then None
    else if s[|s| - 1] == c then Some(|s| - 1)
    else
      var t := LastIndex(s[..|s| - 1], c);
      if t.None? then None
      else
        assert s[t.value + 1..] == s[..|s| - 1][t.value + 1..] + [s[|s| - 1]];
        Some(t.value)
  }

  /**
   * `isValidEmail`: the '@' is the first one, the '.' before the top-level
   * label is the last one.
   */
  predicate IsValidEmail(e: string) {
    match (FirstIndex(e, '@'), LastIndex(e, '.'))
    case (Some(a), Some(k)) =>
      0 < a && a + 1 < k && k + 3 <= |e|
      && AllLocal(e[..a]) && AllDomain(e[a + 1..k]) && AllLetters(e[k + 1..])
    case _ => false
  }

  /** The procedural check accepts exactly the addresses the grammar derives. */
  lemma EmailValidIff(e: string)
    ensures IsValidEmail(e) <==> EmailShape(e)
  {
    if EmailShape(e) {
      var a, k :| EmailSplit(e, a, k);
      var fa := FirstIndex(e, '@');
      var lk := LastIndex(e, '.');
      assert '@' !in e[..a] by {
        forall i | 0 <= i < a ensures e[..a][i] != '@' {
          assert LocalChar(e[..a][i]);
        }
      }
      assert fa == Some(a);
      assert '.' !in e[k + 1..] by {
        forall i | k + 1 <= i < |e| ensures e[i] != '.' {
          assert IsAsciiLetter(e[k + 1..][i - k - 1]);
        }
      }
      assert lk == Some(k);
    }
    if IsValidEmail(e) {
      var a := FirstIndex(e, '@').value;
      var k := LastIndex(e, '.').value;
      assert EmailSplit(e, a, k);
    }
  }

  /** A valid address has exactly one '@', with a non-empty local part before it. */
  lemma EmailOneAt(e: string)
    requires IsValidEmail(e)
    ensures exists a :: 0 < a < |e| && e[a] == '@' && forall i :: 0 <= i < |e| && e[i] == '@' ==> i == a
  {
    var a := FirstIndex(e, '@').value;
    var k := LastIndex(e, '.').value;
    forall i | 0 <= i < |e| && i != a ensures e[i] != '@' {
      if i < a {
        assert e[..a][i] == e[i];
      } else if a < i < k {
        assert DomainChar(e[a + 1..k][i - a - 1]);
      } else if k < i {
        assert IsAsciiLetter(e[k + 1..][i - k - 1]);
      }
    }
  }

  // ---------------------------------------------------------------------
  // Indian phone numbers: `(\+91)?[6-9]\d{9}` after removing `[\s\-().]`

  /** The separators `isValidPhone` removes before matching. */
  predicate PhoneSeparator(c: char) {
    IsJsSpace(c) || c == '-' || c == '(' || c == ')' || c == '.'
  }

  function CleanPhone(p: string): (r: string)
    ensures |r| <= |p|
    ensures forall k :: 0 <= k < |r| ==> !PhoneSeparator(r[k])
    ensures forall c :: c in r ==> c in p
  {
    if p == [] then []
    else
      var rest := CleanPhone(p[1..]);
      if PhoneSeparator(p[0]) then rest else [p[0]] + rest
  }

  /** Ten digits, the first of them 6 to 9. */
  predicate IsMobile(m: string) {
    |m| == 10 && '6' <= m[0] <= '9' && forall k :: 0 <= k < 10 ==> IsDigit(m[k])
  }

  predicate HasCountryCode(c: string) {
    |c| >= 3 && c[0] == '+' && c[1] == '9' && c[2] == '1'
  }

  predicate IsValidPhone(p: string) {
    var c := CleanPhone(p);
    p == [] || IsMobile(c) || (HasCountryCode(c) && IsMobile(c[3..]))
  }

  lemma {:induction false} CleanPhoneAppend(x: string, y: string)
    ensures CleanPhone(x + y) == CleanPhone(x) + CleanPhone(y)
  {
    if x != [] {
      assert (x + y)[1..] == x[1..] + y;
      CleanPhoneAppend(x[1..], y);
    } else {
      assert x + y == y;
    }
  }

  /** Separators may be typed anywhere without changing the verdict. */
  lemma SeparatorsIgnored(x: string, c: char, y: string)
    requires PhoneSeparator(c) && x + y != []
    ensures IsValidPhone(x + [c] + y) == IsValidPhone(x + y)
  {
    CleanPhoneAppend(x, [c] + y);
    CleanPhoneAppend([c], y);
    CleanPhoneAppend(x, y);
    assert x + [c] + y == x + ([c] + y);
  }

  /** A non-empty accepted number cleans to 10 digits or to "+91" and 10 digits. */
  lemma PhoneLength(p: string)
    requires p != [] && IsValidPhone(p)
    ensures |CleanPhone(p)| == 10 || |CleanPhone(p)| == 13
    ensures var c := CleanPhone(p); '6' <= c[|c| - 10] <= '9'
    ensures var c := CleanPhone(p); forall k :: |c| - 10 <= k < |c| ==> IsDigit(c[k])
  {
    var c := CleanPhone(p);
    if !IsMobile(c) {
      forall k | |c| - 10 <= k < |c| ensures IsDigit(c[k]) {
        assert c[k] == c[3..][k - 3];
      }
    }
  }

  lemma {:induction false} CleanPhoneBlank(p: string)
    requires forall k :: 0 <= k < |p| ==> PhoneSeparator(p[k])
    ensures CleanPhone(p) == []
  {
    if p != [] {
      assert PhoneSeparator(p[0]);
      CleanPhoneBlank(p[1..]);
    }
  }

  /** An empty phone is accepted, but one holding only separators is not. */
  lemma BlankPhone(p: string)
    requires forall k :: 0 <= k < |p| ==> PhoneSeparator(p[k])
    ensures IsValidPhone(p) <==> p == []
  {
    CleanPhoneBlank(p);
  }

  // ---------------------------------------------------------------------
  // Length limits

  /** `checkLength`: `.length`, in UTF-16 code units, at most `max`. */
  predicate CheckLength(input: string, max: int) {
    Utf16Length(input) <= max
  }

  // ---------------------------------------------------------------------
  // Client-side rate limiting

  /** The defaults of `canSubmit` and `isRateLimited`. */
  const DefaultMaxSubmissions: nat := 3
  const DefaultWindowMs: int := 60000

  /** The timestamps still inside the window ending at `now`, in order. */
  function Recent(ts: seq<int>, now: int, window: int): (r: seq<int>)
    ensures |r| <= |ts|
    ensures forall t :: t in r <==> t in ts && now - t < window
  {
    if ts == [] then []
    else (if now - ts[0] < window then [ts[0]] else []) + Recent(ts[1..], now, window)
  }

  lemma {:induction false} RecentAppend(xs: seq<int>, ys: seq<int>, now: int, window: int)
    ensures Recent(xs + ys, now, window) == Recent(xs, now, window) + Recent(ys, now, window)
  {
    if xs != [] {
      assert (xs + ys)[1..] == xs[1..] + ys;
      RecentAppend(xs[1..], ys, now, window);
    } else {
      assert xs + ys == ys;
    }
  }

  /** As the clock moves on, the window can only lose timestamps. */
  lemma {:induction false} RecentLater(ts: seq<int>, now: int, later: int, window: int)
    requires now <= later
    ensures Recent(Recent(ts, now, window), later, window) == Recent(ts, later, window)
    ensures |Recent(ts, later, window)| <= |Recent(ts, now, window)|
  {
    if ts != [] {
      RecentLater(ts[1..], now, later, window);
      var h := if now - ts[0] < window then [ts[0]] else [];
      RecentAppend(h, Recent(ts[1..], now, window), later, window);
    }
  }

  /**
   * The sliding-window guarantee: after an accepted submission at `now`,
   * every window ending at `now` or later holds at most `max` accepted
   * submissions.
   */
  lemma AdmitKeepsWindow(ts: seq<int>, now: int, later: int, window: int, max: nat)
    requires |Recent(ts, now, window)| < max && now <= later
    ensures |Recent(Recent(ts, now, window) + [now], later, window)| <= max
  {
    var r := Recent(ts, now, window);
    RecentAppend(r, [now], later, window);
    RecentLater(ts, now, later, window);
    assert |Recent([now], later, window)| <= 1;
  }

  /** The per-form timestamp store kept by `canSubmit`. */
  class RateLimiter {
    var timestamps: map<string, seq<int>>

    constructor ()
      ensures timestamps == map[]
    {
      timestamps := map[];
    }

    /** `submissionTimestamps.get(formId) || []`. */
    function Stored(formId: string): seq<int>
      reads this
    {
      if formId in timestamps then timestamps[formId] else []
    }

    /** No form holds more than `max` timestamps. */
    predicate Bounded(max: nat)
      reads this
    {
      forall id :: id in timestamps ==> |timestamps[id]| <= max
    }

    /** `isRateLimited`: reads the store and never changes it. */
    predicate IsRateLimited(formId: string, max: nat, window: int, now: int)
      reads this
    {
      |Recent(Stored(formId), now, window)| >= max
    }

    /**
     * `canSubmit`: refuses, leaving the store as it is, when `max`
     * timestamps are inside the window; otherwise replaces the form's list
     * by its in-window timestamps followed by `now`.
     */
    method CanSubmit(formId: string, max: nat, window: int, now: int) returns (ok: bool)
      modifies this
      ensures ok == !old(IsRateLimited(formId, max, window, now))
      ensures !ok ==> timestamps == old(timestamps)
      ensures ok ==> timestamps == old(timestamps)[formId := Recent(old(Stored(formId)), now, window) + [now]]
      ensures forall id :: id != formId ==> Stored(id) == old(Stored(id))
      ensures ok ==> |Stored(formId)| <= max
      ensures old(Bounded(max)) ==> Bounded(max)
    {
      var recent := Recent(Stored(formId), now, window);
      if |recent| >= max {
        return false;
      }
      recent := recent + [now];
      timestamps := timestamps[formId := recent];
      return true;
    }
  }

  // ---------------------------------------------------------------------
  // Contact-form validation

  /** The form fields that can carry an error (the keys of the error records). */
  datatype Field = Name | Email | Phone | Subject | Category | Message

  /** Why a field was refused; each form words the reason in its own text. */
  datatype Reason = TooShort | TooLong | Invalid | Missing

  /** `{ field, message }`, with the message given by its reason. */
  datatype ValidationError = ValidationError(field: Field, reason: Reason)

  /** The message text `validateContactForm` gives each of its errors. */
  function ContactFormMessage(e: ValidationError): string {
    match (e.field, e.reason)
    case (Name, TooShort) => "Name must be at least 2 characters."
    case (Name, TooLong) => "Name is too long (max 100 characters)."
    case (Email, _) => "Please enter a valid email address."
    case (Phone, _) => "Please enter a valid Indian phone number."
    case (Message, TooLong) => "Message is too long (max 5000 characters)."
    case (Message, _) => "Message must be at least 10 characters."
    case _ => ""
  }

  /** Every check `validateContactForm` makes, stated field by field. */
  predicate NameOk(name: string) { Utf16Length(Trim(name)) >= 2 && CheckLength(name, 100) }

  /** `phone` is `None` when the field is absent; "" counts as absent too. */
  predicate PhoneOk(phone: Option<string>) {
    phone.None? || phone.value == [] || IsValidPhone(phone.value)
  }

  predicate MessageOk(message: string) { CheckLength(message, 5000) && Utf16Length(Trim(message)) >= 10 }

  predicate ContactFormOk(name: string, email: string, phone: Option<string>, message: string) {
    NameOk(name) && IsValidEmail(email) && PhoneOk(phone) && MessageOk(message)
  }

  /** The fields `validateContactForm` refuses; it never checks a subject or a category. */
  predicate ContactFieldFails(f: Field, name: string, email: string, phone: Option<string>, message: string) {
    match f
    case Name => !NameOk(name)
    case Email => !IsValidEmail(email)
    case Phone => !PhoneOk(phone)
    case Message => !MessageOk(message)
    case _ => false
  }

  /** The order in which the forms check their fields. */
  function FieldRank(field: Field): nat {
    match field
    case Name => 0
    case Email => 1
    case Phone => 2
    case Subject => 3
    case Category => 4
    case Message => 5
  }

  /** `errors.some(e => e.field === field)`. */
  predicate HasError(errors: seq<ValidationError>, field: Field) {
    exists e :: e in errors && e.field == field
  }

  /** Errors come in the order the fields are checked. */
  predicate InCheckOrder(errors: seq<ValidationError>) {
    forall i, j :: 0 <= i < j < |errors| ==> FieldRank(errors[i].field) <= FieldRank(errors[j].field)
  }

  /** `if (failed) errors.push(e)`. */
  function Push(errors: seq<ValidationError>, failed: bool, e: ValidationError): (r: seq<ValidationError>)
    ensures errors <= r && |r| <= |errors| + 1
  {
    if failed then errors + [e] else errors
  }

  /** A push adds the field of its error when the check failed, and no other. */
  lemma PushHas(errors: seq<ValidationError>, failed: bool, e: ValidationError, f: Field)
    ensures HasError(Push(errors, failed, e), f) <==> HasError(errors, f) || (failed && f == e.field)
  {
    if failed && f == e.field {
      assert e in Push(errors, failed, e);
    }
  }

  predicate RanksAtMost(errors: seq<ValidationError>, n: nat) {
    forall i :: 0 <= i < |errors| ==> FieldRank(errors[i].field) <= n
  }

  /** Pushing an error whose field comes no earlier keeps the check order. */
  lemma PushKeepsOrder(xs: seq<ValidationError>, failed: bool, e: ValidationError, n: nat)
    requires InCheckOrder(xs) && RanksAtMost(xs, n) && n <= FieldRank(e.field)
    ensures InCheckOrder(Push(xs, failed, e)) && RanksAtMost(Push(xs, failed, e), FieldRank(e.field))
  {
  }

  /** The errors of the first three checks, on the name and the email, pushed in check order. */
  function NameEmailErrors(nameShort: bool, nameLong: bool, emailBad: bool): seq<ValidationError> {
    var e1 := Push([], nameShort, ValidationError(Name, TooShort));
    var e2 := Push(e1, nameLong, ValidationError(Name, TooLong));
    Push(e2, emailBad, ValidationError(Email, Invalid))
  }

  /** The errors of the six checks, given which of them failed, pushed in check order. */
  function ContactErrors(nameShort: bool, nameLong: bool, emailBad: bool, phoneBad: bool,
                         messageLong: bool, messageShort: bool): seq<ValidationError>
  {
    var e3 := NameEmailErrors(nameShort, nameLong, emailBad);
    var e4 := Push(e3, phoneBad, ValidationError(Phone, Invalid));
    var e5 := Push(e4, messageLong, ValidationError(Message, TooLong));
    Push(e5, messageShort, ValidationError(Message, TooShort))
  }

  lemma NameEmailErrorsOrder(b1: bool, b2: bool, b3: bool)
    ensures InCheckOrder(NameEmailErrors(b1, b2, b3)) && RanksAtMost(NameEmailErrors(b1, b2, b3), 1)
  {
    var e1 := Push([], b1, ValidationError(Name, TooShort));
    PushKeepsOrder([], b1, ValidationError(Name, TooShort), 0);
    var e2 := Push(e1, b2, ValidationError(Name, TooLong));
    PushKeepsOrder(e1, b2, ValidationError(Name, TooLong), 0);
    PushKeepsOrder(e2, b3, ValidationError(Email, Invalid), 0);
  }

  lemma ContactErrorsOrder(b1: bool, b2: bool, b3: bool, b4: bool, b5: bool, b6: bool)
    ensures InCheckOrder(ContactErrors(b1, b2, b3, b4, b5, b6))
  {
    var e3 := NameEmailErrors(b1, b2, b3);
    NameEmailErrorsOrder(b1, b2, b3);
    var e4 := Push(e3, b4, ValidationError(Phone, Invalid));
    PushKeepsOrder(e3, b4, ValidationError(Phone, Invalid), 1);
    var e5 := Push(e4, b5, ValidationError(Message, TooLong));
    PushKeepsOrder(e4, b5, ValidationError(Message, TooLong), 2);
    PushKeepsOrder(e5, b6, ValidationError(Message, TooShort), 5);
  }

  /**
   * `validateContactForm`: one error per failed check, pushed in the order
   * the checks are made.
   */
  function ValidateContactForm(name: string, email: string, phone: Option<string>, message: string)
    : (errors: seq<ValidationError>)
    ensures |errors| <= 6
  {
    ContactErrors(
      name == [] || Utf16Length(Trim(name)) < 2,
      !CheckLength(name, 100),
      email == [] || !IsValidEmail(email),
      phone.Some? && phone.value != [] && !IsValidPhone(phone.value),
      message != [] && !CheckLength(message, 5000),
      message == [] || Utf16Length(Trim(message)) < 10)
  }

  lemma NameEmailErrorsHas(b1: bool, b2: bool, b3: bool, f: Field)
    ensures HasError(NameEmailErrors(b1, b2, b3), f) <==> (f == Name && (b1 || b2)) || (f == Email && b3)
  {
    var e1 := Push([], b1, ValidationError(Name, TooShort));
    PushHas([], b1, ValidationError(Name, TooShort), f);
    var e2 := Push(e1, b2, ValidationError(Name, TooLong));
    PushHas(e1, b2, ValidationError(Name, TooLong), f);
    PushHas(e2, b3, ValidationError(Email, Invalid), f);
  }

  /** A field has an error exactly when one of its checks failed. */
  lemma ContactErrorsHas(b1: bool, b2: bool, b3: bool, b4: bool, b5: bool, b6: bool, f: Field)
    ensures HasError(ContactErrors(b1, b2, b3, b4, b5, b6), f) <==>
      (f == Name && (b1 || b2)) || (f == Email && b3) || (f == Phone && b4) || (f == Message && (b5 || b6))
  {
    var e3 := NameEmailErrors(b1, b2, b3);
    var e4 := Push(e3, b4, ValidationError(Phone, Invalid));
    var e5 := Push(e4, b5, ValidationError(Message, TooLong));
    var e6 := Push(e5, b6, ValidationError(Message, TooShort));
    assert e6 == ContactErrors(b1, b2, b3, b4, b5, b6);
    var h3 := HasError(e3, f);
    var h6 := HasError(e6, f);
    assert h3 <==> (f == Name && (b1 || b2)) || (f == Email && b3) by {
      NameEmailErrorsHas(b1, b2, b3, f);
    }
    assert h6 <==> h3 || (f == Phone && b4) || (f == Message && (b5 || b6)) by {
      PushHas(e3, b4, ValidationError(Phone, Invalid), f);
      PushHas(e4, b5, ValidationError(Message, TooLong), f);
      PushHas(e5, b6, ValidationError(Message, TooShort), f);
    }
  }

  /** `!s || s.trim().length < n` is the trim test alone, an empty text trimming to nothing. */
  lemma ShortIffTrimmed(s: string, n: nat)
    requires n > 0
    ensures (s == [] || Utf16Length(Trim(s)) < n) == (Utf16Length(Trim(s)) < n)
  {
    if s == [] {
      assert Trim(s) == [];
    }
  }

  /** `validateContactForm`'s checks, each as the truth of "it failed". */
  lemma ContactFormChecks(name: string, email: string, phone: Option<string>, message: string)
    ensures ValidateContactForm(name, email, phone, message) ==
      ContactErrors(Utf16Length(Trim(name)) < 2, !CheckLength(name, 100), !IsValidEmail(email), !PhoneOk(phone),
                    !CheckLength(message, 5000), Utf16Length(Trim(message)) < 10)
  {
    ShortIffTrimmed(name, 2);
    ShortIffTrimmed(message, 10);
    assert (email == [] || !IsValidEmail(email)) == !IsValidEmail(email);
    assert (phone.Some? && phone.value != [] && !IsValidPhone(phone.value)) == !PhoneOk(phone);
    assert (message != [] && !CheckLength(message, 5000)) == !CheckLength(message, 5000);
  }

  /** The name has an error exactly when it is under 2 characters once trimmed or over 100. */
  lemma NameErrors(name: string, email: string, phone: Option<string>, message: string)
    ensures HasError(ValidateContactForm(name, email, phone, message), Name) <==> !NameOk(name)
  {
    ContactFormChecks(name, email, phone, message);
    ContactErrorsHas(Utf16Length(Trim(name)) < 2, !CheckLength(name, 100), !IsValidEmail(email),
                     !PhoneOk(phone), !CheckLength(message, 5000), Utf16Length(Trim(message)) < 10, Name);
  }

  /** The email has an error exactly when `isValidEmail` refuses it. */
  lemma EmailErrors(name: string, email: string, phone: Option<string>, message: string)
    ensures HasError(ValidateContactForm(name, email, phone, message), Email) <==> !IsValidEmail(email)
  {
    ContactFormChecks(name, email, phone, message);
    ContactErrorsHas(Utf16Length(Trim(name)) < 2, !CheckLength(name, 100), !IsValidEmail(email),
                     !PhoneOk(phone), !CheckLength(message, 5000), Utf16Length(Trim(message)) < 10, Email);
  }

  /** The phone has an error exactly when one is given and `isValidPhone` refuses it. */
  lemma PhoneErrors(name: string, email: string, phone: Option<string>, message: string)
    ensures HasError(ValidateContactForm(name, email, phone, message), Phone) <==> !PhoneOk(phone)
  {
    ContactFormChecks(name, email, phone, message);
    ContactErrorsHas(Utf16Length(Trim(name)) < 2, !CheckLength(name, 100), !IsValidEmail(email),
                     !PhoneOk(phone), !CheckLength(message, 5000), Utf16Length(Trim(message)) < 10, Phone);
  }

  /** The message has an error exactly when it is over 5000 characters or under 10 once trimmed. */
  lemma MessageErrors(name: string, email: string, phone: Option<string>, message: string)
    ensures HasError(ValidateContactForm(name, email, phone, message), Message) <==> !MessageOk(message)
  {
    ContactFormChecks(name, email, phone, message);
    ContactErrorsHas(Utf16Length(Trim(name)) < 2, !CheckLength(name, 100), !IsValidEmail(email),
                     !PhoneOk(phone), !CheckLength(message, 5000), Utf16Length(Trim(message)) < 10, Message);
  }

  /** Neither a subject nor a category is ever checked. */
  lemma UncheckedErrors(name: string, email: string, phone: Option<string>, message: string)
    ensures !HasError(ValidateContactForm(name, email, phone, message), Subject)
    ensures !HasError(ValidateContactForm(name, email, phone, message), Category)
  {
    var b1, b2, b3 := Utf16Length(Trim(name)) < 2, !CheckLength(name, 100), !IsValidEmail(email);
    var b4, b5, b6 := !PhoneOk(phone), !CheckLength(message, 5000), Utf16Length(Trim(message)) < 10;
    ContactFormChecks(name, email, phone, message);
    ContactErrorsHas(b1, b2, b3, b4, b5, b6, Subject);
    ContactErrorsHas(b1, b2, b3, b4, b5, b6, Category);
  }

  /**
   * A field has an error exactly when its check fails; a missing or empty
   * phone never does, and no subject or category is checked.
   */
  lemma ContactFormFieldErrors(name: string, email: string, phone: Option<string>, message: string, f: Field)
    ensures HasError(ValidateContactForm(name, email, phone, message), f) <==>
      ContactFieldFails(f, name, email, phone, message)
  {
    match f {
      case Name => NameErrors(name, email, phone, message);
      case Email => EmailErrors(name, email, phone, message);
      case Phone => PhoneErrors(name, email, phone, message);
      case Message => MessageErrors(name, email, phone, message);
      case Subject => UncheckedErrors(name, email, phone, message);
      case Category => UncheckedErrors(name, email, phone, message);
    }
  }

  /** No error at all exactly when every check passes. */
  lemma ContactFormNoErrors(name: string, email: string, phone: Option<string>, message: string)
    ensures ValidateContactForm(name, email, phone, message) == [] <==> ContactFormOk(name, email, phone, message)
  {
    var errors := ValidateContactForm(name, email, phone, message);
    if errors != [] {
      var f := errors[|errors| - 1].field;
      assert HasError(errors, f);
      ContactFormFieldErrors(name, email, phone, message, f);
    } else {
      ContactFormFieldErrors(name, email, phone, message, Name);
      ContactFormFieldErrors(name, email, phone, message, Email);
      ContactFormFieldErrors(name, email, phone, message, Phone);
      ContactFormFieldErrors(name, email, phone, message, Message);
    }
  }

  lemma ContactFormInCheckOrder(name: string, email: string, phone: Option<string>, message: string)
    ensures InCheckOrder(ValidateContactForm(name, email, phone, message))
  {
    ContactErrorsOrder(
      name == [] || Utf16Length(Trim(name)) < 2,
      !CheckLength(name, 100),
      email == [] || !IsValidEmail(email),
      phone.Some? && phone.value != [] && !IsValidPhone(phone.value),
      message != [] && !CheckLength(message, 5000),
      message == [] || Utf16Length(Trim(message)) < 10);
  }

}
