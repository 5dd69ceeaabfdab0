/**
 The field constraints that class-validator's decorators place on CreateLeadDto, as
 predicates over the request body before it is turned into the DTO.

 A property of the body is absent (undefined or null), a string, or some other JSON value.
 Each decorator is one predicate; a property is valid when all its decorators hold. The
 syntax check behind `@IsEmail` belongs to class-validator, which is not part of this
 model: it is the parameter `isEmail`.
 */
module CreateLeadDto {
  import opened PhonePattern

  /** A property of the incoming body. */
  datatype Value = Absent | Str(s: string) | NonString

  /** The body of a create request. */
  datatype LeadBody = LeadBody(
    name: Value,
    email: Value,
    phoneNumber: Value,
    leadType: Value,
    companyName: Value)

  const LeadTypes: seq<string> := ["resident", "tourist", "company"]

  // ---- the decorators ----

  /** `@IsNotEmpty()`: not undefined, not null and not the empty string. */
  predicate IsNotEmpty(v: Value) {
    v != Absent && v != Str("")
  }

  /** `@IsString()` */
  predicate IsString(v: Value) {
    v.Str?
  }

  /** `@MinLength(n)`: a string of at least `n` characters. */
  predicate MinLength(v: Value, n: nat) {
    v.Str? && |v.s| >= n
  }

  /** `@MaxLength(n)`: a string of at most `n` characters. */
  predicate MaxLength(v: Value, n: nat) {
    v.Str? && |v.s| <= n
  }

  /** `@IsIn(allowed)`: strictly equal to one of the allowed values. */
  predicate IsIn(v: Value, allowed: seq<string>) {
    v.Str? && v.s in allowed
  }

  /** `@IsEmail()`: a string that the library's syntax check accepts. */
  predicate IsEmail(v: Value, isEmail: string -> bool) {
    v.Str? && isEmail(v.s)
  }

  /** `@Matches(/^\(\d{2}\)\s\d\s\d{4}-\d{4}$/)` */
  predicate MatchesPhonePattern(v: Value) {
    v.Str? && IsPhoneNumber(v.s)
  }

  // ---- the properties ----

  predicate ValidName(v: Value) {
    IsNotEmpty(v) && IsString(v) && MinLength(v, 4) && MaxLength(v, 50)
  }

  predicate ValidEmail(v: Value, isEmail: string -> bool) {
    IsNotEmpty(v) && IsEmail(v, isEmail) && MaxLength(v, 100)
  }

  predicate ValidLeadType(v: Value) {
    IsNotEmpty(v) && IsString(v) && IsIn(v, LeadTypes) && MinLength(v, 4) && MaxLength(v, 10)
  }

  /** The condition of `@ValidateIf` on company_name. */
  predicate CompanyNameChecked(b: LeadBody) {
    b.leadType == Str("company")
  }

  /** When the condition of `@ValidateIf` is false every other decorator of the property is skipped. */
  predicate ValidCompanyName(b: LeadBody) {
    CompanyNameChecked(b) ==>
      IsNotEmpty(b.companyName) && IsString(b.companyName) &&
      MinLength(b.companyName, 5) && MaxLength(b.companyName, 50)
  }

  predicate ValidPhoneNumber(v: Value) {
    IsNotEmpty(v) && IsString(v) && MatchesPhonePattern(v)
  }

  /** The body passes validation: every property satisfies all of its decorators. */
  predicate IsValid(b: LeadBody, isEmail: string -> bool) {
    ValidName(b.name) && ValidEmail(b.email, isEmail) && ValidLeadType(b.leadType) &&
    ValidCompanyName(b) && ValidPhoneNumber(b.phoneNumber)
  }

  // ---- what the decorators amount to ----

  /** A name is valid exactly when it is a string of 4 to 50 characters. */
  lemma ValidNameIff(v: Value)
    ensures ValidName(v) <==> v.Str? && 4 <= |v.s| <= 50
  {
  }

  /** An email is valid exactly when it is a non-empty string of at most 100 characters
      that the syntax check accepts. */
  lemma ValidEmailIff(v: Value, isEmail: string -> bool)
    ensures ValidEmail(v, isEmail) <==> v.Str? && 1 <= |v.s| <= 100 && isEmail(v.s)
  {
  }

  /** Membership in the three lead types already implies the length bounds 4 to 10. */
  lemma LeadTypeBoundsImplied(v: Value)
    requires IsIn(v, LeadTypes)
    ensures MinLength(v, 4) && MaxLength(v, 10) && IsNotEmpty(v)
  {
  }

  /** The type is valid exactly when it is one of "resident", "tourist", "company". */
  lemma ValidLeadTypeIff(v: Value)
    ensures ValidLeadType(v) <==> v == Str("resident") || v == Str("tourist") || v == Str("company")
  {
  }

  /** For a company lead the company name must be a string of 5 to 50 characters; for any
      other type every value, absent included, is accepted. */
  lemma ValidCompanyNameIff(b: LeadBody)
    ensures CompanyNameChecked(b) ==>
              (ValidCompanyName(b) <==> b.companyName.Str? && 5 <= |b.companyName.s| <= 50)
    ensures !CompanyNameChecked(b) ==> ValidCompanyName(b)
  {
  }

  /** A phone number is valid exactly when it is a string with the shape `(DD) D DDDD-DDDD`. */
  lemma ValidPhoneNumberIff(v: Value)
    ensures ValidPhoneNumber(v) <==> v.Str? && PhoneShape(v.s)
  {
    if v.Str? {
      PhoneNumberIff(v.s);
      if PhoneShape(v.s) {
        assert v != Str("");
      }
    }
  }

  /** A valid body carries a phone number of exactly 16 characters. */
  lemma ValidPhoneNumberLength(b: LeadBody, isEmail: string -> bool)
    requires IsValid(b, isEmail)
    ensures b.phoneNumber.Str? && |b.phoneNumber.s| == 16
  {
    PhoneNumberLength(b.phoneNumber.s);
  }

  /** The whole body, field by field. */
  lemma IsValidIff(b: LeadBody, isEmail: string -> bool)
    ensures IsValid(b, isEmail) <==>
      (b.name.Str? && 4 <= |b.name.s| <= 50) &&
      (b.email.Str? && 1 <= |b.email.s| <= 100 && isEmail(b.email.s)) &&
      (b.leadType == Str("resident") || b.leadType == Str("tourist") || b.leadType == Str("company")) &&
      (b.leadType == Str("company") ==> b.companyName.Str? && 5 <= |b.companyName.s| <= 50) &&
      (b.phoneNumber.Str? && PhoneShape(b.phoneNumber.s))
  {
    ValidNameIff(b.name);
    ValidEmailIff(b.email, isEmail);
    ValidLeadTypeIff(b.leadType);
    ValidCompanyNameIff(b);
    ValidPhoneNumberIff(b.phoneNumber);
  }

  /** Validity depends on the type: the body of the end-to-end test, which has no company
      name, is valid as a resident lead and invalid once its type is "company". */
  lemma ValidityDependsOnType(isEmail: string -> bool)
    requires isEmail("john@example.com")
    ensures var resident := LeadBody(Str("John Doe"), Str("john@example.com"),
                                     Str("(85) 9 9999-9999"), Str("resident"), Absent);
            IsValid(resident, isEmail) && !IsValid(resident.(leadType := Str("company")), isEmail)
  {
    var resident := LeadBody(Str("John Doe"), Str("john@example.com"),
                             Str("(85) 9 9999-9999"), Str("resident"), Absent);
    ValidPhoneNumberIff(resident.phoneNumber);
    assert ValidName(resident.name) && ValidEmail(resident.email, isEmail);
    assert ValidLeadType(resident.leadType);
    assert !ValidCompanyName(resident.(leadType := Str("company")));
  }

  /** A company lead is accepted once its company name has 5 to 50 characters. */
  lemma CompanyLeadWithNameIsValid(isEmail: string -> bool)
    requires isEmail("john@example.com")
    ensures IsValid(LeadBody(Str("John Doe"), Str("john@example.com"), Str("(85) 9 9999-9999"),
                             Str("company"), Str("Acme Ltda")), isEmail)
  {
    ValidPhoneNumberIff(Str("(85) 9 9999-9999"));
    assert ValidLeadType(Str("company"));
  }
}
