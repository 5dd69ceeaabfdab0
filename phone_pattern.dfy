/**
 The regular expression `^\(\d{2}\)\s\d\s\d{4}-\d{4}$` that CreateLeadDto applies to
 `phone_number`. It has no alternation and no variable repetition, so it is a fixed list
 of one-character atoms; an anchored test of it is a position-by-position match.

 ECMAScript semantics without the `u` flag: `\d` is an ASCII digit and `\s` is one of the
 WhiteSpace or LineTerminator code points. Every atom matches one code point of the Basic
 Multilingual Plane, so matching code points here agrees with matching UTF-16 code units.
 */
module PhonePattern {

  /** One position of the pattern. */
  datatype Atom = Literal(c: char) | Digit | Whitespace

  /** `\d` */
  predicate IsDigit(c: char) {
    '0' <= c <= '9'
  }

  /** `\s`: TAB, LF, VT, FF, CR, SPACE, NBSP, the other space separators, LS, PS, BOM. */
  predicate IsWhitespace(c: char) {
    var n := c as int;
    (0x09 <= n <= 0x0D) || n == 0x20 || n == 0xA0 || n == 0x1680 ||
    (0x2000 <= n <= 0x200A) || n == 0x2028 || n == 0x2029 || n == 0x202F ||
    n == 0x205F || n == 0x3000 || n == 0xFEFF
  }

  predicate AtomMatches(a: Atom, c: char) {
    match a
    case Literal(x) => c == x
    case Digit => IsDigit(c)
    case Whitespace => IsWhitespace(c)
  }

  /** `^p$` holds of `s`: the atoms match the characters one by one and nothing is left over. */
  predicate Matches(p: seq<Atom>, s: string)
    decreases p
  {
    if p == [] then s == []
    else s != [] && AtomMatches(p[0], s[0]) && Matches(p[1..], s[1..])
  }

  /** The quantifier `a{n}`. */
  function Repeat(a: Atom, n: nat): (r: seq<Atom>)
    ensures |r| == n
    ensures forall i :: 0 <= i < n ==> r[i] == a
  {
    if n == 0 then [] else [a] + Repeat(a, n - 1)
  }

  /** `\(\d{2}\)\s\d\s\d{4}-\d{4}` */
  function PhoneNumberPattern(): seq<Atom> {
    [Literal('(')] + Repeat(Digit, 2) + [Literal(')'), Whitespace, Digit, Whitespace]
    + Repeat(Digit, 4) + [Literal('-')] + Repeat(Digit, 4)
  }

  /** The `@Matches` test on a string phone number. */
  predicate IsPhoneNumber(s: string) {
    Matches(PhoneNumberPattern(), s)
  }

  /** The shape `(DD)sDsDDDD-DDDD` written out position by position. */
  predicate PhoneShape(s: string) {
    |s| == 16 &&
    s[0] == '(' && IsDigit(s[1]) && IsDigit(s[2]) && s[3] == ')' &&
    IsWhitespace(s[4]) && IsDigit(s[5]) && IsWhitespace(s[6]) &&
    IsDigit(s[7]) && IsDigit(s[8]) && IsDigit(s[9]) && IsDigit(s[10]) &&
    s[11] == '-' &&
    IsDigit(s[12]) && IsDigit(s[13]) && IsDigit(s[14]) && IsDigit(s[15])
  }

  /** An anchored match consumes exactly one character per atom. */
  lemma {:induction false} MatchesLength(p: seq<Atom>, s: string)
    requires Matches(p, s)
    ensures |s| == |p|
  {
    if p != [] {
      MatchesLength(p[1..], s[1..]);
    }
  }

  /** The recursive matcher agrees with the pointwise reading of the pattern. */
  lemma {:induction false} MatchesPointwise(p: seq<Atom>, s: string)
    ensures Matches(p, s) <==>
            |s| == |p| && forall i :: 0 <= i < |p| ==> AtomMatches(p[i], s[i])
  {
    if p != [] && s != [] {
      MatchesPointwise(p[1..], s[1..]);
      if |s| == |p| && forall i :: 0 <= i < |p| ==> AtomMatches(p[i], s[i]) {
        forall i | 0 <= i < |p| - 1
          ensures AtomMatches(p[1..][i], s[1..][i])
        {
          assert AtomMatches(p[i + 1], s[i + 1]);
        }
      }
      if Matches(p, s) {
        forall i | 0 <= i < |p|
          ensures AtomMatches(p[i], s[i])
        {
          if i > 0 {
            assert AtomMatches(p[1..][i - 1], s[1..][i - 1]);
          }
        }
      }
    }
  }

  /** The pattern written out atom by atom. */
  const PhoneNumberAtoms: seq<Atom> :=
    [Literal('('), Digit, Digit, Literal(')'), Whitespace, Digit, Whitespace,
     Digit, Digit, Digit, Digit, Literal('-'), Digit, Digit, Digit, Digit]

  /** Expanding the quantifiers of the pattern gives the atoms one by one. */
  lemma PhoneNumberPatternAtoms()
    ensures PhoneNumberPattern() == PhoneNumberAtoms
  {
  }

  lemma PointwiseToShape(s: string)
    requires |s| == 16 && forall i :: 0 <= i < 16 ==> AtomMatches(PhoneNumberAtoms[i], s[i])
    ensures PhoneShape(s)
  {
  }

  lemma ShapeToPointwise(s: string)
    requires PhoneShape(s)
    ensures forall i :: 0 <= i < 16 ==> AtomMatches(PhoneNumberAtoms[i], s[i])
  {
  }

  /** A phone number is accepted exactly when it has the explicit shape. */
  lemma PhoneNumberIff(s: string)
    ensures IsPhoneNumber(s) <==> PhoneShape(s)
  {
    PhoneNumberPatternAtoms();
    MatchesPointwise(PhoneNumberAtoms, s);
    if IsPhoneNumber(s) {
      PointwiseToShape(s);
    }
    if PhoneShape(s) {
      ShapeToPointwise(s);
    }
  }

  /** Every accepted phone number has exactly 16 characters. */
  lemma PhoneNumberLength(s: string)
    requires IsPhoneNumber(s)
    ensures |s| == 16
  {
    MatchesLength(PhoneNumberPattern(), s);
    PhoneNumberPatternAtoms();
  }

  /** The number used by the service tests is accepted. */
  lemma AcceptsServiceTestNumber()
    ensures IsPhoneNumber("(11) 9 9999-9999")
  {
    PhoneNumberIff("(11) 9 9999-9999");
  }

  /** "(00) 0 0000-000", stored directly by the end-to-end tests, has only three trailing
      digits and would not pass validation. */
  lemma RejectsThreeTrailingDigits()
    ensures !IsPhoneNumber("(00) 0 0000-000")
  {
    PhoneNumberIff("(00) 0 0000-000");
  }

  /** A number without parentheses and inner spacing is rejected. */
  lemma RejectsUnformattedNumber()
    ensures !IsPhoneNumber("11 99999-9999")
  {
  }
}
