/**
 * The JavaScript string operations the site relies on, over `string` (a
 * sequence of Unicode scalar values): `toLowerCase` (for ASCII letters),
 * `trim`, `includes`, `startsWith`, `indexOf`, `replace` with a string
 * pattern (first occurrence only), `replace` of one character everywhere,
 * and `split` on one separator character.
 */
module Strings {
  import opened Wrappers

  // ---------------------------------------------------------------------
  // Character classes

  predicate IsAsciiUpper(c: char) { 'A' <= c <= 'Z' }

  predicate IsAsciiLetter(c: char) { 'A' <= c <= 'Z' || 'a' <= c <= 'z' }

  predicate IsDigit(c: char) { '0' <= c <= '9' }

  /** The regular-expression class `\w`. */
  predicate IsWordChar(c: char) { IsAsciiLetter(c) || IsDigit(c) || c == '_' }

  /**
   * The characters `String.prototype.trim` removes and the regular-expression
   * class `\s` matches: WhiteSpace and LineTerminator of ECMA-262.
   */
  predicate IsJsSpace(c: char) {
    || c == ' ' || c == '\t' || c == '\n' || c == '\U{B}' || c == '\U{C}' || c == '\r'
    || c == '\U{A0}' || c == '\U{1680}' || ('\U{2000}' <= c <= '\U{200A}')
    || c == '\U{2028}' || c == '\U{2029}' || c == '\U{202F}' || c == '\U{205F}'
    || c == '\U{3000}' || c == '\U{FEFF}'
  }

  function LowerChar(c: char): (r: char)
    ensures IsAsciiUpper(c) ==> r as int == c as int + 32
    ensures !IsAsciiUpper(c) ==> r == c
  {
    if IsAsciiUpper(c) then (c as int + 32) as char else c
  }

  /** `toLowerCase`, for the ASCII letters. */
  function ToLower(s: string): (r: string)
    ensures |r| == |s|
    ensures forall i :: 0 <= i < |s| ==> r[i] == LowerChar(s[i])
  {
    seq(|s|, i requires 0 <= i < |s| => LowerChar(s[i]))
  }

  lemma ToLowerIdempotent(s: string)
    ensures ToLower(ToLower(s)) == ToLower(s)
  {
  }

  /** Lower-casing neither creates nor removes white space. */
  lemma LowerCharSpace(c: char)
    ensures IsJsSpace(LowerChar(c)) == IsJsSpace(c)
  {
  }

  // ---------------------------------------------------------------------
  // length

  /**
   * The UTF-16 code units JavaScript stores for one character: two (a
   * surrogate pair) above U+FFFF, one otherwise.
   */
  function CodeUnits(c: char): (n: nat)
    ensures n == 1 || n == 2
  {
    if c as int > 0xFFFF then 2 else 1
  }

  /** `.length`: the number of UTF-16 code units, not of characters. */
  function Utf16Length(s: string): (n: nat)
    ensures |s| <= n <= 2 * |s|
    ensures n == 0 <==> s == []
    decreases |s|
  {
    if s == [] then 0 else CodeUnits(s[0]) + Utf16Length(s[1..])
  }

  /** `.length` splits over concatenation. */
  lemma {:induction false} Utf16LengthAppend(a: string, b: string)
    ensures Utf16Length(a + b) == Utf16Length(a) + Utf16Length(b)
    decreases |a|
  {
    if a == [] {
      assert a + b == b;
    } else {
      assert (a + b)[1..] == a[1..] + b;
      Utf16LengthAppend(a[1..], b);
    }
  }

  /** Text wholly within the Basic Multilingual Plane has as many code units as characters. */
  lemma {:induction false} Utf16LengthBmp(s: string)
    requires forall i :: 0 <= i < |s| ==> s[i] as int <= 0xFFFF
    ensures Utf16Length(s) == |s|
    decreases |s|
  {
    if s != [] {
      Utf16LengthBmp(s[1..]);
    }
  }

  /** One character above U+FFFF, such as an emoji, has length 2. */
  lemma AstralLength()
    ensures Utf16Length(['\U{1F44D}']) == 2
    ensures Utf16Length(['\U{1F44D}', '\U{1F44D}', '\U{1F44D}', '\U{1F44D}', '\U{1F44D}']) == 10
  {
    var e := '\U{1F44D}';
    assert [e, e, e, e, e][1..] == [e, e, e, e];
    assert [e, e, e, e][1..] == [e, e, e];
    assert [e, e, e][1..] == [e, e];
    assert [e, e][1..] == [e];
  }

  // ---------------------------------------------------------------------
  // trim

  /** The index of the first character at or after `i` that is not white space, or `|s|`. */
  function SkipSpaces(s: string, i: nat): (a: nat)
    requires i <= |s|
    ensures i <= a <= |s| && (a == |s| || !IsJsSpace(s[a]))
    ensures forall k :: i <= k < a ==> IsJsSpace(s[k])
    decreases |s| - i
  {
    if i < |s| && IsJsSpace(s[i]) then SkipSpaces(s, i + 1) else i
  }

  /** The end of `s[a..j]` once the white space before `j` is dropped. */
  function SkipSpacesBack(s: string, a: nat, j: nat): (b: nat)
    requires a <= j <= |s|
    ensures a <= b <= j && (b == a || !IsJsSpace(s[b - 1]))
    ensures forall k :: b <= k < j ==> IsJsSpace(s[k])
    decreases j
  {
    if a < j && IsJsSpace(s[j - 1]) then SkipSpacesBack(s, a, j - 1) else j
  }

  /** `trimEnd`: drops the white space at the end. */
  function TrimEnd(s: string): (r: string)
    ensures |r| <= |s| && r == s[..|r|]
    ensures r == [] || !IsJsSpace(r[|r| - 1])
    ensures forall i :: |r| <= i < |s| ==> IsJsSpace(s[i])
  {
    s[..SkipSpacesBack(s, 0, |s|)]
  }

  /** `trim`: the longest slice of `s` that neither starts nor ends with white space. */
  function Trim(s: string): (r: string)
    ensures exists a, b :: TrimmedAt(s, r, a, b)
    ensures r == [] || (!IsJsSpace(r[0]) && !IsJsSpace(r[|r| - 1]))
  {
    var a := SkipSpaces(s, 0);
    var b := SkipSpacesBack(s, a, |s|);
    assert TrimmedAt(s, s[a..b], a, b);
    s[a..b]
  }

  /** `r` is `s[a..b]`, and everything outside it is white space. */
  predicate TrimmedAt(s: string, r: string, a: int, b: int) {
    && 0 <= a <= b <= |s| && r == s[a..b]
    && (forall k :: 0 <= k < a ==> IsJsSpace(s[k]))
    && (forall k :: b <= k < |s| ==> IsJsSpace(s[k]))
  }

  /** `trim()` keeps a slice of its input: no longer, the input itself when as long, and no new character. */
  lemma TrimInner(s: string)
    ensures |Trim(s)| <= |s|
    ensures |Trim(s)| == |s| ==> Trim(s) == s
    ensures forall c :: c in Trim(s) ==> c in s
  {
    var r := Trim(s);
    var a, b :| TrimmedAt(s, r, a, b);
    forall c | c in r ensures c in s {
      var k :| 0 <= k < |r| && r[k] == c;
      assert s[a + k] == c;
    }
  }

  /** A string that neither starts nor ends with white space is its own trim. */
  lemma TrimUnchanged(s: string)
    requires s == [] || (!IsJsSpace(s[0]) && !IsJsSpace(s[|s| - 1]))
    ensures Trim(s) == s
  {
  }

  /** `trim()` is empty exactly when every character is white space. */
  lemma TrimEmptyIff(s: string)
    ensures Trim(s) == [] <==> forall i :: 0 <= i < |s| ==> IsJsSpace(s[i])
  {
    var a := SkipSpaces(s, 0);
    var b := SkipSpacesBack(s, a, |s|);
    if a < b {
      assert Trim(s)[0] == s[a];
    }
  }

  /** Lower-casing first does not change whether `trim()` leaves anything. */
  lemma TrimToLowerEmpty(s: string)
    ensures Trim(ToLower(s)) == [] <==> Trim(s) == []
  {
    TrimEmptyIff(s);
    TrimEmptyIff(ToLower(s));
    forall i | 0 <= i < |s| ensures IsJsSpace(ToLower(s)[i]) == IsJsSpace(s[i]) {
      LowerCharSpace(s[i]);
    }
  }

  // ---------------------------------------------------------------------
  // includes, startsWith, indexOf

  /** `sub` occurs in `s` at index `j`. */
  predicate MatchAt(s: string, sub: string, j: int) {
    0 <= j && j + |sub| <= |s| && s[j..j + |sub|] == sub
  }

  /** `s.indexOf(sub, i)`: the first occurrence at or after `i`. */
  function IndexFrom(s: string, sub: string, i: nat): (r: Option<nat>)
    ensures r.Some? ==> i <= r.value && MatchAt(s, sub, r.value)
    ensures r.Some? ==> forall j :: i <= j < r.value ==> !MatchAt(s, sub, j)
    ensures r.None? ==> forall j :: i <= j ==> !MatchAt(s, sub, j)
    decreases |s| - i
  {
    if i + |sub| > |s| then None
    else if s[i..i + |sub|] == sub then Some(i)
    else IndexFrom(s, sub, i + 1)
  }

  function IndexOf(s: string, sub: string): Option<nat> {
    IndexFrom(s, sub, 0)
  }

  /** `s.includes(sub)`. */
  predicate Contains(s: string, sub: string) {
    IndexOf(s, sub).Some?
  }

  lemma ContainsIff(s: string, sub: string)
    ensures Contains(s, sub) <==> exists j :: MatchAt(s, sub, j)
  {
  }

  /** `s.startsWith(p)`. */
  predicate StartsWith(s: string, p: string) {
    |p| <= |s| && s[..|p|] == p
  }

  lemma StartsWithContains(s: string, p: string)
    requires StartsWith(s, p)
    ensures Contains(s, p)
  {
    assert MatchAt(s, p, 0);
  }

  /** An occurrence in a longer string makes `includes` true. */
  lemma ContainsAt(s: string, sub: string, j: int)
    requires MatchAt(s, sub, j)
    ensures Contains(s, sub)
  {
  }

  // ---------------------------------------------------------------------
  // replace

  /**
   * `s.replace(pat, rep)` with a string pattern: only the first occurrence
   * of `pat` is replaced; with no occurrence `s` is returned unchanged.
   */
  function ReplaceFirst(s: string, pat: string, rep: string): string {
    match IndexOf(s, pat)
    case None => s
    case Some(i) => s[..i] + rep + s[i + |pat|..]
  }

  /**
   * Without an occurrence nothing changes; otherwise the first occurrence,
   * with none before it, is the one replaced.
   */
  lemma ReplaceFirstSpec(s: string, pat: string, rep: string)
    ensures !Contains(s, pat) ==> ReplaceFirst(s, pat, rep) == s
    ensures Contains(s, pat) ==>
      var i := IndexOf(s, pat).value;
      && MatchAt(s, pat, i) && (forall j :: 0 <= j < i ==> !MatchAt(s, pat, j))
      && ReplaceFirst(s, pat, rep) == s[..i] + rep + s[i + |pat|..]
  {
  }

  /** `s.replace(/c/g, rep)` for one character `c`. */
  function ReplaceAllChar(s: string, c: char, rep: string): (r: string)
    ensures c !in rep ==> c !in r
    ensures forall d :: d in r ==> d in s || d in rep
    decreases |s|
  {
    if s == [] then []
    else (if s[0] == c then rep else [s[0]]) + ReplaceAllChar(s[1..], c, rep)
  }

  lemma {:induction false} ReplaceAllCharAppend(a: string, b: string, c: char, rep: string)
    ensures ReplaceAllChar(a + b, c, rep) == ReplaceAllChar(a, c, rep) + ReplaceAllChar(b, c, rep)
    decreases |a|
  {
    if a != [] {
      ReplaceAllCharAppend(a[1..], b, c, rep);
      assert (a + b)[0] == a[0] && (a + b)[1..] == a[1..] + b;
      var head := if a[0] == c then rep else [a[0]];
      assert ReplaceAllChar(a, c, rep) == head + ReplaceAllChar(a[1..], c, rep);
    } else {
      assert a + b == b;
    }
  }

  lemma ReplaceAllCharSingle(c: char, d: char, rep: string)
    ensures ReplaceAllChar([c], d, rep) == if c == d then rep else [c]
  {
    assert [c][1..] == [];
    assert ReplaceAllChar([], d, rep) == [];
  }

  lemma {:induction false} ReplaceAllCharAbsent(s: string, c: char, rep: string)
    requires c !in s
    ensures ReplaceAllChar(s, c, rep) == s
    decreases |s|
  {
    if s != [] {
      ReplaceAllCharAbsent(s[1..], c, rep);
      assert s == [s[0]] + s[1..];
    }
  }

  /** Every occurrence of `c` grows the string by `|rep| - 1`. */
  lemma {:induction false} ReplaceAllCharLength(s: string, c: char, rep: string)
    ensures |ReplaceAllChar(s, c, rep)| == |s| + (|rep| - 1) * CountChar(s, c)
    decreases |s|
  {
    if s != [] {
      ReplaceAllCharLength(s[1..], c, rep);
    }
  }

  // ---------------------------------------------------------------------
  // split

  function CountChar(s: string, c: char): nat
    decreases |s|
  {
    if s == [] then 0 else (if s[0] == c then 1 else 0) + CountChar(s[1..], c)
  }

  /** `s.split(sep)` for a one-character separator; `"".split(sep)` is `[""]`. */
  function Split(s: string, sep: char): (r: seq<string>)
    ensures |r| >= 1
    decreases |s|
  {
    if s == [] then [""]
    else
      var rest := Split(s[1..], sep);
      if s[0] == sep then [""] + rest else [[s[0]] + rest[0]] + rest[1..]
  }

  /** Splitting yields one more piece than there are separators. */
  lemma {:induction false} SplitLength(s: string, sep: char)
    ensures |Split(s, sep)| == CountChar(s, sep) + 1
    decreases |s|
  {
    if s != [] {
      SplitLength(s[1..], sep);
    }
  }

  lemma {:induction false} CountCharZero(s: string, c: char)
    ensures CountChar(s, c) == 0 <==> c !in s
    decreases |s|
  {
    if s != [] {
      CountCharZero(s[1..], c);
      assert s == [s[0]] + s[1..];
    }
  }

  /** A split gives more than one piece exactly when the separator occurs. */
  lemma SplitMany(s: string, sep: char)
    ensures |Split(s, sep)| > 1 <==> sep in s
  {
    SplitLength(s, sep);
    CountCharZero(s, sep);
  }
}
