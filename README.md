# Lead service model

A Dafny model of the two pieces of logic in the lead-management API:

- **`LeadsService`** (`leads_service.dfy`, module `Leads`): this runs create, list, read, update and delete against the `leads` table. The table is a `map<string, Lead>` from id to row, stored in the `leads` field of class `LeadsService`. `Create`, `Update` and `Remove` are methods that change that field in place; `FindAll`, `FindOne` and `FindFirstByEmail` only read it.
  - `Create` looks up the email first. If it is taken, it returns `BadRequest("Lead already exists")`. Otherwise it inserts one row under a fresh id.
  - `FindAll` returns every row.
  - `FindOne` returns the row for an id, or `NotFound("Lead does not exist")`.
  - `Update` checks that the id exists, then overwrites the fields given in the patch.
  - `Remove` checks that the id exists, then deletes the row and answers `{message: "Lead deleted successfully"}`.
  - The class invariant `Valid()` says every row is stored under its own id.
  - Email uniqueness (`EmailsUnique`) is kept by `Create` and `Remove`. `Update` does not re-check emails, so it can break uniqueness (`UpdateCanDuplicateEmail`).
  - `EndToEnd` is a client of the class. It chains the steps of the end-to-end tests into one run on the body of the end-to-end POST, and adds a duplicate create and a second delete. Its results follow from the method contracts alone.
- **The `CreateLeadDto` validator** (`create_lead_dto.dfy` and `phone_pattern.dfy`): each class-validator decorator is a predicate over one property of the request body. A property is absent, a string, or some other JSON value. The body is valid when every decorator of every property holds.
  - The `company_name` rules apply only when `type` is `"company"`, mirroring `@ValidateIf`.
  - The phone regular expression `^\(\d{2}\)\s\d\s\d{4}-\d{4}$` is a list of one-character atoms. The anchored match is a recursive matcher over that list. It is proved equal to an explicit 16-position shape.
- **The row and the patch** (`lead_entity.dfy`, module `LeadEntity`): the `Lead` row, the `LeadData` that `create` inserts, and the `LeadPatch` update body. In the patch every field except the id is either absent (`Keep`) or given (`Set`). `ApplyPatch` is characterised independently: it keeps the id, sets every given field and changes nothing else.

Details of the code that the model keeps:
- `@ValidateIf` (src/leads/dto/create-lead.dto.ts:31-33) skips every check on `company_name` unless `type` is `"company"`, so other types accept any value, absent included.
- `remove` answers `{message: "Lead deleted successfully"}` (src/leads/leads.service.ts:68).
- The end-to-end tests write the phone number `"(00) 0 0000-000"` straight into the table, bypassing validation. The validator would refuse it (`RejectsThreeTrailingDigits`).

## Model

| member | source | states |
|---|---|---|
| `Leads.LeadsService.constructor` | src/leads/leads.service.ts:12 | the service starts over an empty table that satisfies the invariant |
| `Leads.LeadsService.FindFirstByEmail` | src/leads/leads.service.ts:17-19 | the lookup finds a row exactly when some stored row has that email, and the row it returns is stored and has that email |
| `Leads.LeadsService.Create` | src/leads/leads.service.ts:14-34 | a taken email gives BadRequest "Lead already exists" and leaves the table unchanged; a fresh email inserts exactly one row under the new id with the supplied fields and changes no other row; unique emails stay unique either way; rows stay keyed by their id |
| `Leads.InsertKeepsEmailsUnique` | src/leads/leads.service.ts:17-33 | inserting a row with an unused email under an unused id keeps every email unique |
| `Leads.LeadsService.FindAll` | src/leads/leads.service.ts:36-38 | the result contains every stored row and nothing else, one element per stored id, and the table is not changed |
| `Leads.RowCount` | src/leads/leads.service.ts:36-38 | in a table where each row is stored under its own id, there are exactly as many distinct rows as ids |
| `Leads.LeadsService.FindOne` | src/leads/leads.service.ts:40-50 | a present id gives its stored row, an absent id gives NotFound "Lead does not exist", and the table is not changed |
| `Leads.LeadsService.Update` | src/leads/leads.service.ts:52-59 | an absent id gives NotFound and writes nothing; a present id replaces that row with the patched row, returns it, and leaves every other row unchanged |
| `Leads.UpdateCanDuplicateEmail` | src/leads/leads.service.ts:52-59 | since update does not check emails, a table with unique emails can end up with two rows sharing an email after one update |
| `Leads.LeadsService.Remove` | src/leads/leads.service.ts:61-69 | an absent id gives NotFound and deletes nothing; a present id deletes exactly that row and answers "Lead deleted successfully"; unique emails stay unique |
| `Leads.RemoveKeepsEmailsUnique` | src/leads/leads.service.ts:64-66 | deleting any row keeps emails unique |
| `Leads.RemoveUndoesInsert` | src/leads/leads.service.ts:64-66 | deleting the row that a create just inserted restores the previous table |
| `Leads.EndToEnd` | test/leads.e2e-spec.ts:37-126 | the steps of the end-to-end tests chained into one run on an empty table with the POST body: create returns the supplied fields under the new id; the list holds just that row; reading returns the created row; renaming changes only the name; delete confirms; a later read gives NotFound. Two added steps: a second create with the same email is refused (src/leads/leads.service.ts:21-23), and a second delete gives NotFound (src/leads/leads.service.ts:61-62) |
| `LeadEntity.NewLeadFields` | src/leads/leads.service.ts:25-33 | the inserted row has the new id and exactly the supplied name, email, phone number, type and company name |
| `LeadEntity.ApplyPatchCharacterized` | src/leads/leads.service.spec.ts:84-111 | a row is the result of a patch iff it keeps the id, holds every given field's new value and differs from the old row only on given fields |
| `LeadEntity.ApplyPatchIdempotent` | src/leads/leads.service.ts:55-58 | applying the same patch twice gives the same row as applying it once |
| `LeadEntity.EmptyPatchKeepsLead` | src/leads/leads.service.ts:55-58 | a patch with no fields leaves the row unchanged |
| `PhonePattern.Repeat` | src/leads/dto/create-lead.dto.ts:42 | the quantifier `a{n}` yields exactly n copies of the atom |
| `PhonePattern.MatchesLength` | src/leads/dto/create-lead.dto.ts:42 | an anchored match consumes one character per atom, so the string is as long as the pattern |
| `PhonePattern.MatchesPointwise` | src/leads/dto/create-lead.dto.ts:42 | the recursive anchored match holds iff the lengths agree and every atom matches the character at its position |
| `PhonePattern.PhoneNumberPatternAtoms` | src/leads/dto/create-lead.dto.ts:42 | expanding `\d{2}` and `\d{4}` gives the sixteen atoms `(`, digit, digit, `)`, space, digit, space, four digits, `-`, four digits |
| `PhonePattern.PhoneNumberIff` | src/leads/dto/create-lead.dto.ts:42 | a phone number is accepted iff it is `(`, two digits, `)`, whitespace, a digit, whitespace, four digits, `-`, four digits |
| `PhonePattern.PhoneNumberLength` | src/leads/dto/create-lead.dto.ts:42 | every accepted phone number has exactly 16 characters |
| `PhonePattern.AcceptsServiceTestNumber` | src/leads/leads.service.spec.ts:39 | "(11) 9 9999-9999" is accepted |
| `PhonePattern.RejectsThreeTrailingDigits` | test/leads.e2e-spec.ts:60 | "(00) 0 0000-000" is rejected |
| `PhonePattern.RejectsUnformattedNumber` | src/leads/dto/create-lead.dto.ts:42 | "11 99999-9999" is rejected |
| `CreateLeadDto.ValidNameIff` | src/leads/dto/create-lead.dto.ts:13-17 | a name is valid iff it is a string of 4 to 50 characters |
| `CreateLeadDto.ValidEmailIff` | src/leads/dto/create-lead.dto.ts:19-22 | an email is valid iff it is a string of 1 to 100 characters that the email syntax check accepts |
| `CreateLeadDto.LeadTypeBoundsImplied` | src/leads/dto/create-lead.dto.ts:24-29 | membership in resident/tourist/company already implies the non-empty check and the length bounds 4 to 10 |
| `CreateLeadDto.ValidLeadTypeIff` | src/leads/dto/create-lead.dto.ts:24-29 | a type is valid iff it is "resident", "tourist" or "company" |
| `CreateLeadDto.ValidCompanyNameIff` | src/leads/dto/create-lead.dto.ts:31-38 | for type "company", the company name is valid iff it is a string of 5 to 50 characters; for any other type, every value, absent included, is accepted |
| `CreateLeadDto.ValidPhoneNumberIff` | src/leads/dto/create-lead.dto.ts:40-43 | a phone number is valid iff it is a string with the explicit 16-position shape |
| `CreateLeadDto.ValidPhoneNumberLength` | src/leads/dto/create-lead.dto.ts:40-43 | a valid body carries a phone number of exactly 16 characters |
| `CreateLeadDto.IsValidIff` | src/leads/dto/create-lead.dto.ts:12-44 | a body is valid iff all five field conditions hold together, and the company name condition applies only when the type is "company" |
| `CreateLeadDto.ValidityDependsOnType` | src/leads/dto/create-lead.dto.ts:31-38 | the end-to-end body with no company name is valid as a resident lead and invalid once its type is "company" |
| `CreateLeadDto.CompanyLeadWithNameIsValid` | src/leads/dto/create-lead.dto.ts:31-38 | a company lead with a 9-character company name is valid |

## Left out

- Timestamps: `created_at` and `updated_at` are set by the database, not by visible code. The row has no timestamp fields, and nothing is claimed about `updated_at` advancing on update.
- Id generation: the database generates the id. `Create` takes it as a parameter that must not already be in the table.
- Email syntax: the check behind `@IsEmail` belongs to class-validator, which is not part of this model. It is the parameter `isEmail`.
- Length counting: the model's `MinLength` and `MaxLength` count Unicode scalar values. class-validator hands these checks to validator.js `isLength`, which also leaves out every U+FE0E and U+FE0F variation selector. So `"abc"` followed by U+FE0F has length 3 there and fails `@MinLength(4)`, while the model accepts it as a name.
- Validation of update bodies: the update DTO file is not part of this model. A patch is any combination of fields; it is not validated, and it cannot carry an id.
- Validation pipe wiring: the global pipe (src/main.ts) is not modelled. That covers whitelisting, refusing unknown properties, and turning a body into the DTO. So `create` takes already-typed `LeadData`, and no function maps a `LeadBody` to it. One gap follows: for a type other than `"company"` the validator accepts a non-string `company_name`, and `create` would pass it on to Prisma (src/leads/leads.service.ts:31), which refuses it. `LeadData` cannot hold such a value, so that refusal is not modelled.
- Database failures and the store's own unique index on email are not modelled. The schema is not part of this model.
- Concurrency: the check-then-act window between the lookup and the write is not modelled. Each method runs to completion atomically, and `async`/`await` is not modelled.
- `Leads.LeadsService.FindAll`: returns a set of rows rather than an array. The order of the rows is not modelled.
- HTTP: status codes, routing, API versioning, CORS and process bootstrap (src/main.ts), the dependency-injection module (src/app.module.ts), the Prisma connection (src/common/prisma/prisma.service.ts) and the controller are not modelled. Errors are the `Error` datatype instead of HTTP statuses.
