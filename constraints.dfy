/** The Bean Validation constraints the request bodies use (@NotBlank, @Size(max), @Email),
    with the meaning Hibernate Validator gives them, and the set of violations a
    field's constraints produce. */
module Constraints {
  import opened Types

  /** String.trim strips every character at or below U+0020 from both ends. */
  predicate Trimmed(c: char) {
    c <= ' '
  }

  function TrimStart(s: string): (r: string)
    ensures |r| <= |s| && r == s[|s| - |r|..]
    ensures forall k :: 0 <= k < |s| - |r| ==> Trimmed(s[k])
    ensures |r| > 0 ==> !Trimmed(r[0])
  {
    if |s| > 0 && Trimmed(s[0]) then TrimStart(s[1..]) else s
  }

  function TrimEnd(s: string): (r: string)
    ensures |r| <= |s| && r == s[..|r|]
    ensures forall k :: |r| <= k < |s| ==> Trimmed(s[k])
    ensures |r| > 0 ==> !Trimmed(r[|r| - 1])
  {
    if |s| > 0 && Trimmed(s[|s| - 1]) then TrimEnd(s[..|s| - 1]) else s
  }

  /** String.trim. */
  function Trim(s: string): string {
    TrimEnd(TrimStart(s))
  }

  /** @NotBlank: not null, and something is left after trimming. */
  predicate NotBlank(value: Option<string>) {
    value.Some? && |Trim(value.value)| > 0
  }

  /** String.length: the number of UTF-16 code units, two for a character outside the
      Basic Multilingual Plane. */
  function Utf16Length(s: string): (n: nat)
    ensures |s| <= n <= 2 * |s|
    ensures (forall i :: 0 <= i < |s| ==> s[i] as int <= 0xFFFF) ==> n == |s|
  {
    if s == [] then 0
    else (if s[0] as int <= 0xFFFF then 1 else 2) + Utf16Length(s[1..])
  }

  /** @Size(max): null is valid; otherwise the length is at most max. */
  predicate SizeAtMost(value: Option<string>, max: nat) {
    value.None? || Utf16Length(value.value) <= max
  }

  /** @Email: null and the empty string are valid; anything else must match the address
      syntax, which is the isEmail parameter. */
  predicate EmailFormat(value: Option<string>, isEmail: string -> bool) {
    value.None? || value.value == "" || isEmail(value.value)
  }

  datatype Constraint = NotBlankConstraint | SizeConstraint(max: nat) | EmailConstraint

  predicate Satisfies(value: Option<string>, constraint: Constraint, isEmail: string -> bool) {
    match constraint
    case NotBlankConstraint => NotBlank(value)
    case SizeConstraint(max) => SizeAtMost(value, max)
    case EmailConstraint => EmailFormat(value, isEmail)
  }

  /** One annotation on a field: the constraint and its message. */
  datatype Check = Check(constraint: Constraint, message: string)

  /** A ConstraintViolation: the property path, the constraint and the message. */
  datatype Violation = Violation(field: string, constraint: Constraint, message: string)

  /** The violations of one field's annotations. */
  function FieldViolations(field: string, value: Option<string>, checks: seq<Check>, isEmail: string -> bool): (r: set<Violation>)
    ensures r == {} <==> forall k :: 0 <= k < |checks| ==> Satisfies(value, checks[k].constraint, isEmail)
    ensures forall v :: v in r ==> v.field == field && Check(v.constraint, v.message) in checks && !Satisfies(value, v.constraint, isEmail)
    ensures forall k :: 0 <= k < |checks| && !Satisfies(value, checks[k].constraint, isEmail) ==>
      Violation(field, checks[k].constraint, checks[k].message) in r
  {
    var r := set k | 0 <= k < |checks| && !Satisfies(value, checks[k].constraint, isEmail) :: Violation(field, checks[k].constraint, checks[k].message);
    assert forall k :: 0 <= k < |checks| && !Satisfies(value, checks[k].constraint, isEmail) ==>
      Violation(field, checks[k].constraint, checks[k].message) in r;
    r
  }

  /** The number a string of decimal digits denotes, most significant digit first. */
  function DigitsValue(s: string): nat
    requires forall i :: 0 <= i < |s| ==> '0' <= s[i] <= '9'
  {
    if s == [] then 0
    else 10 * DigitsValue(s[..|s| - 1]) + (s[|s| - 1] as int - '0' as int)
  }

  /** The decimal digits of n, as Java writes an int into a string: digits only, no
      leading zero unless n is 0, and denoting n. */
  function Decimal(n: nat): (r: string)
    ensures |r| > 0
    ensures forall i :: 0 <= i < |r| ==> '0' <= r[i] <= '9'
    ensures r[0] == '0' ==> n == 0
    ensures DigitsValue(r) == n
  {
    var digit := ((n % 10) + '0' as int) as char;
    if n < 10 then [digit]
    else
      var prefix := Decimal(n / 10);
      assert (prefix + [digit])[..|prefix|] == prefix;
      prefix + [digit]
  }

  /** The message of a field's @Size(max) annotation. */
  function SizeMessage(name: string, max: nat): string {
    name + " can be at most " + Decimal(max) + " characters long"
  }

  // ---------------------------------------------------------------------------------
  // Lemmas

  /** Trimming leaves something exactly when some character is above U+0020. */
  lemma NotBlankIff(s: string)
    ensures NotBlank(Some(s)) <==> exists i :: 0 <= i < |s| && !Trimmed(s[i])
  {
    var front := TrimStart(s);
    var t := Trim(s);
    if |t| > 0 {
      assert t == front[..|t|];
      assert !Trimmed(front[0]);
      assert front[0] == s[|s| - |front|];
    }
  }

  /** A value made only of spaces, tabs, line breaks and other control characters is blank. */
  lemma WhitespaceOnlyIsBlank(s: string)
    requires forall i :: 0 <= i < |s| ==> Trimmed(s[i])
    ensures !NotBlank(Some(s))
  {
    NotBlankIff(s);
  }

  /** The three @Size limits the request bodies use print as written. */
  lemma DecimalOfLimits()
    ensures Decimal(20) == "20" && Decimal(50) == "50" && Decimal(120) == "120"
  {
    assert Decimal(2) == "2";
    assert Decimal(5) == "5";
    assert Decimal(12) == "12";
  }

  /** The @Size messages of those limits, as the annotations spell them. */
  lemma SizeMessagesOfLimits(name: string)
    ensures SizeMessage(name, 20) == name + " can be at most 20 characters long"
    ensures SizeMessage(name, 50) == name + " can be at most 50 characters long"
    ensures SizeMessage(name, 120) == name + " can be at most 120 characters long"
  {
    SizeMessage20(name);
    SizeMessage50(name);
    SizeMessage120(name);
  }

  // One lemma per limit: each string equation is then a small proof obligation of its own.

  lemma SizeMessage20(name: string)
    ensures SizeMessage(name, 20) == name + " can be at most 20 characters long"
  {
    DecimalOfLimits();
  }

  lemma SizeMessage50(name: string)
    ensures SizeMessage(name, 50) == name + " can be at most 50 characters long"
  {
    DecimalOfLimits();
  }

  lemma SizeMessage120(name: string)
    ensures SizeMessage(name, 120) == name + " can be at most 120 characters long"
  {
    DecimalOfLimits();
  }
}
