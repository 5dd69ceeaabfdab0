/**
 The stored lead record, the data the service inserts for a create, and the partial patch
 of an update. The timestamps `created_at` and `updated_at` are set by the database and are
 not part of this model.
 */
module LeadEntity {

  datatype Option<T> = None | Some(value: T)

  /** One property of an update body: left out of the body, or given a new value. */
  datatype Patch<T> = Keep | Set(value: T)

  /** A row of the `leads` table. */
  datatype Lead = Lead(
    id: string,
    name: string,
    email: string,
    phoneNumber: string,
    leadType: string,
    companyName: Option<string>)

  /** The fields `create` passes to the database; the id is generated there. */
  datatype LeadData = LeadData(
    name: string,
    email: string,
    phoneNumber: string,
    leadType: string,
    companyName: Option<string>)

  /** An update body: every field of a lead except its id, each optional. A given
      company name may be null, which clears it. */
  datatype LeadPatch = LeadPatch(
    name: Patch<string>,
    email: Patch<string>,
    phoneNumber: Patch<string>,
    leadType: Patch<string>,
    companyName: Patch<Option<string>>)

  /** The fields a patch can touch. */
  datatype Field = Name | Email | PhoneNumber | LeadType | CompanyName

  const EmptyPatch := LeadPatch(Keep, Keep, Keep, Keep, Keep)

  /** The row the database stores for `data` under the generated `id`. */
  function NewLead(id: string, data: LeadData): Lead {
    Lead(id, data.name, data.email, data.phoneNumber, data.leadType, data.companyName)
  }

  function Patched<T>(current: T, p: Patch<T>): T {
    match p
    case Keep => current
    case Set(v) => v
  }

  /** The row after an update with `p`: given fields take the new value, the rest stay. */
  function ApplyPatch(l: Lead, p: LeadPatch): Lead {
    Lead(l.id,
         Patched(l.name, p.name),
         Patched(l.email, p.email),
         Patched(l.phoneNumber, p.phoneNumber),
         Patched(l.leadType, p.leadType),
         Patched(l.companyName, p.companyName))
  }

  /** The fields present in the patch. */
  function Given(p: LeadPatch): set<Field> {
    (if p.name.Set? then {Name} else {}) +
    (if p.email.Set? then {Email} else {}) +
    (if p.phoneNumber.Set? then {PhoneNumber} else {}) +
    (if p.leadType.Set? then {LeadType} else {}) +
    (if p.companyName.Set? then {CompanyName} else {})
  }

  /** The fields on which two rows differ. */
  function Changed(a: Lead, b: Lead): set<Field> {
    (if a.name != b.name then {Name} else {}) +
    (if a.email != b.email then {Email} else {}) +
    (if a.phoneNumber != b.phoneNumber then {PhoneNumber} else {}) +
    (if a.leadType != b.leadType then {LeadType} else {}) +
    (if a.companyName != b.companyName then {CompanyName} else {})
  }

  /** Every field given in `p` holds its new value in `r`. */
  predicate HoldsPatch(r: Lead, p: LeadPatch) {
    (p.name.Set? ==> r.name == p.name.value) &&
    (p.email.Set? ==> r.email == p.email.value) &&
    (p.phoneNumber.Set? ==> r.phoneNumber == p.phoneNumber.value) &&
    (p.leadType.Set? ==> r.leadType == p.leadType.value) &&
    (p.companyName.Set? ==> r.companyName == p.companyName.value)
  }

  /** The inserted row holds exactly the supplied fields under the new id. */
  lemma NewLeadFields(id: string, data: LeadData)
    ensures var l := NewLead(id, data);
            l.id == id && LeadData(l.name, l.email, l.phoneNumber, l.leadType, l.companyName) == data
  {
  }

  /** An update keeps the id, gives every field in the patch its new value and changes no
      field outside the patch; and it is the only row that does all three. */
  lemma ApplyPatchCharacterized(l: Lead, p: LeadPatch, r: Lead)
    ensures r == ApplyPatch(l, p) <==>
            r.id == l.id && HoldsPatch(r, p) && Changed(l, r) <= Given(p)
  {
  }

  /** Sending the same patch twice has the effect of sending it once. */
  lemma ApplyPatchIdempotent(l: Lead, p: LeadPatch)
    ensures ApplyPatch(ApplyPatch(l, p), p) == ApplyPatch(l, p)
  {
  }

  /** An empty update body leaves the row as it was. */
  lemma EmptyPatchKeepsLead(l: Lead)
    ensures ApplyPatch(l, EmptyPatch) == l
  {
  }
}
