/**
 * The order form's values and the validation schema that decides whether they
 * may be submitted: a full name whose trimmed length is 3 to 20 characters, a
 * size code that is one of "S", "M", "L", and an unconstrained list of topping ids.
 */
module FormSchema {

  /** The form's field values. `size` is the raw select value ("" until chosen). */
  datatype FormValues = FormValues(fullName: string, size: string, toppings: seq<string>)

  /** The two fields that are edited through a text input or a select. */
  datatype Field = FullName | Size

  /** The key under which the schema, the values and the errors hold a field. */
  function FieldName(f: Field): string {
    match f
    case FullName => "fullName"
    case Size => "size"
  }

  const MinNameLength: nat := 3
  const MaxNameLength: nat := 20

  // Error messages of the schema.
  const FullNameTooShort: string := "full name must be at least 3 characters"
  const FullNameTooLong: string := "full name must be at most 20 characters"
  const SizeIncorrect: string := "size must be S or M or L"
  const NameRequired: string := "Name is required"
  const SizeRequired: string := "Size is required"

  /** The values the form starts with and is reset to after a successful order. */
  function InitialValues(): (v: FormValues)
    ensures !IsValid(v)
    ensures forall w: FormValues :: IsValid(w) ==> w.fullName != v.fullName && w.size != v.size
  {
    FormValues("", "", [])
  }

  /** ECMAScript white space and line terminators: what `trim` removes. */
  const WhitespaceChars: set<char> := {
    '\t', '\n', '\U{000B}', '\U{000C}', '\r', ' ', '\U{00A0}', '\U{1680}',
    '\U{2000}', '\U{2001}', '\U{2002}', '\U{2003}', '\U{2004}', '\U{2005}',
    '\U{2006}', '\U{2007}', '\U{2008}', '\U{2009}', '\U{200A}',
    '\U{2028}', '\U{2029}', '\U{202F}', '\U{205F}', '\U{3000}', '\U{FEFF}'
  }

  predicate IsWhitespace(c: char) {
    c in WhitespaceChars
  }

  predicate AllWhitespace(s: string) {
    forall i :: 0 <= i < |s| ==> IsWhitespace(s[i])
  }

  /** The number of white-space characters at the start of `s`. */
  function LeadingWhitespace(s: string): (n: nat)
    ensures n <= |s|
    ensures n == |s| || !IsWhitespace(s[n])
  {
    if s != [] && IsWhitespace(s[0]) then 1 + LeadingWhitespace(s[1..]) else 0
  }

  /** Everything `LeadingWhitespace` counts is white space. */
  lemma {:induction false} LeadingIsWhitespace(s: string)
    ensures AllWhitespace(s[..LeadingWhitespace(s)])
  {
    if s != [] && IsWhitespace(s[0]) {
      LeadingIsWhitespace(s[1..]);
      assert s[..LeadingWhitespace(s)] == [s[0]] + s[1..][..LeadingWhitespace(s[1..])];
    }
  }

  /** The length of `s` without its trailing white space. */
  function TrailingStart(s: string): (n: nat)
    ensures n <= |s|
    ensures n == 0 || !IsWhitespace(s[n - 1])
  {
    if s != [] && IsWhitespace(s[|s| - 1]) then TrailingStart(s[..|s| - 1]) else |s|
  }

  /** Everything after `TrailingStart` is white space. */
  lemma {:induction false} TrailingIsWhitespace(s: string)
    ensures AllWhitespace(s[TrailingStart(s)..])
  {
    if s != [] && IsWhitespace(s[|s| - 1]) {
      var init := s[..|s| - 1];
      TrailingIsWhitespace(init);
      assert s[TrailingStart(s)..] == init[TrailingStart(init)..] + [s[|s| - 1]];
    }
  }

  /** The string's `trim()`: white space cut off both ends. */
  function Trim(s: string): string {
    var u := s[LeadingWhitespace(s)..];
    u[..TrailingStart(u)]
  }

  lemma {:induction false} LeadingPadded(p: string, x: string)
    requires AllWhitespace(p)
    requires x == [] || !IsWhitespace(x[0])
    ensures LeadingWhitespace(p + x) == |p|
  {
    if p == [] {
      assert p + x == x;
    } else {
      assert (p + x)[0] == p[0];
      assert (p + x)[1..] == p[1..] + x;
      LeadingPadded(p[1..], x);
    }
  }

  lemma {:induction false} TrailingPadded(x: string, q: string)
    requires AllWhitespace(q)
    requires x == [] || !IsWhitespace(x[|x| - 1])
    ensures TrailingStart(x + q) == |x|
  {
    if q == [] {
      assert x + q == x;
    } else {
      var s := x + q;
      assert s[|s| - 1] == q[|q| - 1];
      assert s[..|s| - 1] == x + q[..|q| - 1];
      TrailingPadded(x, q[..|q| - 1]);
    }
  }

  /**
   * Trim is characterised independently of its definition: whatever is left
   * after cutting white-space padding off both ends of a string whose ends are
   * not white space is exactly that string.
   */
  lemma TrimOfPadded(p: string, t: string, q: string)
    requires AllWhitespace(p) && AllWhitespace(q)
    requires t == [] || (!IsWhitespace(t[0]) && !IsWhitespace(t[|t| - 1]))
    ensures Trim(p + t + q) == t
  {
    var s := p + t + q;
    if t == [] {
      assert s == (p + q) + [];
      AllWhitespaceConcat(p, q);
      LeadingPadded(p + q, []);
      assert s[|s|..] == [];
    } else {
      assert s == p + (t + q);
      LeadingPadded(p, t + q);
      assert s[|p|..] == t + q;
      TrailingPadded(t, q);
      assert (t + q)[..|t|] == t;
    }
  }

  lemma AllWhitespaceConcat(a: string, b: string)
    requires AllWhitespace(a) && AllWhitespace(b)
    ensures AllWhitespace(a + b)
  {
    forall i | 0 <= i < |a + b| ensures IsWhitespace((a + b)[i]) {
      if i < |a| { assert (a + b)[i] == a[i]; } else { assert (a + b)[i] == b[i - |a|]; }
    }
  }

  /** What `trim` leaves has no white space at either end. */
  lemma TrimEnds(s: string)
    ensures var t := Trim(s); t == [] || (!IsWhitespace(t[0]) && !IsWhitespace(t[|t| - 1]))
  {
    var k := LeadingWhitespace(s);
    var u := s[k..];
    var m := TrailingStart(u);
    if m > 0 {
      assert Trim(s)[0] == s[k];
      assert Trim(s)[m - 1] == u[m - 1];
    }
  }

  /** Cutting a string at two points and joining the three pieces gives it back. */
  lemma {:induction false} Pieces(s: string, k: nat, m: nat)
    requires k <= |s| && m <= |s| - k
    ensures s == s[..k] + s[k..][..m] + s[k..][m..]
  {
    var u := s[k..];
    assert u == u[..m] + u[m..];
    assert s == s[..k] + u;
    assert s[..k] + (u[..m] + u[m..]) == s[..k] + u[..m] + u[m..];
  }

  /** Every string is its trim with white-space padding on both sides. */
  lemma TrimSplit(s: string) returns (lead: string, trail: string)
    ensures s == lead + Trim(s) + trail
    ensures AllWhitespace(lead) && AllWhitespace(trail)
    ensures var t := Trim(s); t == [] || (!IsWhitespace(t[0]) && !IsWhitespace(t[|t| - 1]))
  {
    var k := LeadingWhitespace(s);
    var u := s[k..];
    var m := TrailingStart(u);
    lead, trail := s[..k], u[m..];
    Pieces(s, k, m);
    LeadingIsWhitespace(s);
    TrailingIsWhitespace(u);
    TrimEnds(s);
  }

  /** Extra white space around a string never changes what `trim` leaves. */
  lemma TrimIgnoresPadding(s: string, p: string, q: string)
    requires AllWhitespace(p) && AllWhitespace(q)
    ensures Trim(p + s + q) == Trim(s)
  {
    var t := Trim(s);
    var lead, trail := TrimSplit(s);
    AllWhitespaceConcat(p, lead);
    AllWhitespaceConcat(trail, q);
    assert p + (lead + t + trail) + q == (p + lead) + t + (trail + q);
    TrimOfPadded(p + lead, t, trail + q);
  }

  /** A string without white space at either end is its own trim. */
  lemma TrimUnpadded(t: string)
    requires t == [] || (!IsWhitespace(t[0]) && !IsWhitespace(t[|t| - 1]))
    ensures Trim(t) == t
  {
    assert [] + t + [] == t;
    TrimOfPadded([], t, []);
  }

  /** Trimming twice is trimming once. */
  lemma TrimIdempotent(s: string)
    ensures Trim(Trim(s)) == Trim(s)
  {
    var lead, trail := TrimSplit(s);
    TrimUnpadded(Trim(s));
  }

  /** The full-name rule: the trimmed name is 3 to 20 characters long. */
  predicate NameAccepted(name: string) {
    MinNameLength <= |Trim(name)| <= MaxNameLength
  }

  /** The size rule: one of the three size codes. */
  predicate IsSizeCode(size: string) {
    size == "S" || size == "M" || size == "L"
  }

  /** Whole-form validation: the form may be submitted exactly when this holds. */
  predicate IsValid(v: FormValues) {
    NameAccepted(v.fullName) && IsSizeCode(v.size)
  }

  /** The full-name rules broken by `name`: too short, too long, missing. */
  function NameViolations(name: string): (r: set<string>)
    ensures r <= {FullNameTooShort, FullNameTooLong, NameRequired}
    ensures r == {} <==> NameAccepted(name)
  {
    var n := |Trim(name)|;
    (if n < MinNameLength then {FullNameTooShort} else {})
      + (if n > MaxNameLength then {FullNameTooLong} else {})
      + (if n == 0 then {NameRequired} else {})
  }

  /** The size rules broken by `size`: not a size code, missing. */
  function SizeViolations(size: string): (r: set<string>)
    ensures r <= {SizeIncorrect, SizeRequired}
    ensures r == {} <==> IsSizeCode(size)
  {
    (if IsSizeCode(size) then {} else {SizeIncorrect})
      + (if size == "" then {SizeRequired} else {})
  }

  /**
   * Single-field validation: the messages of every rule of field `f` that
   * `value` breaks. The schema reports one of them; which one is not modelled.
   */
  function Violations(f: Field, value: string): (r: set<string>)
    ensures "" !in r
    ensures r == {} <==> (if f == FullName then NameAccepted(value) else IsSizeCode(value))
  {
    match f
    case FullName => NameViolations(value)
    case Size => SizeViolations(value)
  }

  /** Whole-form and single-field validation agree, and the toppings play no part. */
  lemma ValidIffNoViolations(v: FormValues, toppings: seq<string>)
    ensures IsValid(v) <==> Violations(FullName, v.fullName) == {} && Violations(Size, v.size) == {}
    ensures IsValid(v.(toppings := toppings)) <==> IsValid(v)
  {
  }

  /** Spaces typed around a name never change whether the form is valid. */
  lemma ValidityIgnoresPadding(v: FormValues, p: string, q: string)
    requires AllWhitespace(p) && AllWhitespace(q)
    ensures IsValid(v.(fullName := p + v.fullName + q)) <==> IsValid(v)
  {
    TrimIgnoresPadding(v.fullName, p, q);
  }

  /** A two-letter name is too short; "Ann" with a size code is accepted. */
  lemma ValidityExamples()
    ensures Violations(FullName, "Al") == {FullNameTooShort}
    ensures Violations(FullName, "  ") == {FullNameTooShort, NameRequired}
    ensures Violations(Size, "") == {SizeIncorrect, SizeRequired}
    ensures !IsValid(FormValues("Al", "M", []))
    ensures IsValid(FormValues("Ann", "M", []))
  {
    TrimUnpadded("Al");
    TrimUnpadded("Ann");
    assert "  " == "  " + [] + [];
    TrimOfPadded("  ", [], []);
  }
}
