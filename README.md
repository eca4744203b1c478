# SiGana backend core, in Dafny

SiGana is the backend of a child-nutrition monitoring service. Volunteers
(relawan) weigh and measure children (balita) at aid posts (posko) in
villages. The server classifies every measurement against growth tables.
Measurements recorded offline are synchronised in batches. Accounts log in
with a single refresh session.

This project models the logic at the centre of that backend and proves
properties of it:

- **The nutrition-status classifier** (`ZScoreCalculator`, with its
  threshold tables in `ZScoreConstants`). It picks the table row for the
  child's age, sorts weight-for-age and length-for-age against the -3SD/-2SD
  cut-offs, and sorts weight-for-length against a reference weight. It then
  combines the three colour scores (HIJAU, KUNING, MERAH) into the worst one.
  Weights, lengths and ages are exact `real` numbers.
- **Age in whole months** (`Calendar`), shared by the two services.
- **Pagination** (`Pagination`): `skip` and `totalPages`.
- **The measurement service** (`MeasurementService`):
  - the role-based list filter;
  - creation with server-computed statuses;
  - the offline-sync partition into creates and updates by `localId`;
  - the delta-sync filter with tombstones;
  - the per-status counts.
  The database is a class `Store.Database` whose tables are fields.
- **The child service** (`BalitaService`): the list filter with its
  case-insensitive search, the age attached to every row, and the existence
  checks in front of reads and writes.
- **The authentication service** (`Auth.AuthService`). It is a class whose
  fields are the user table, the email index, the password-reset table and
  the id/serial counter. Each operation is a method with its full effect on
  those tables:
  - register and login, with a single refresh session per user;
  - refresh-token rotation with reuse detection;
  - both logouts;
  - the expiring, single-use password-reset tokens.
  bcrypt and sha256 are modelled as injective hashes. A JSON Web Token is a
  value carrying its payload, signing key, issue serial and expiry.
- **The request guards** (`AuthMiddleware`): the token choice between the
  `Bearer` header and the cookie, verification, and the role check.
- **The seed script's data path**:
  - `SeedCsv`: the hand-written CSV reader, as nested loops over lines and
    characters;
  - `SeedValues`: the number and date cell parsers;
  - `SeedMerge`: the merge of the two spreadsheets into an insertion-ordered
    map keyed by child (a class `BalitaMap`);
  - `SeedInsert`: the insert loop with its measurement-skip rule.

`JsStrings` models the JavaScript string built-ins the code relies on:
`trim` (including U+FEFF), `split` on one-character separators,
`toLowerCase` and `includes`. `Wrappers` holds `Option` and `Result`.
`Types` holds the roles and the token payload.

The clock is a parameter everywhere the code calls `new Date()`. So are the
random draws (faker, `crypto.randomBytes`) and the token verifier the
middleware is handed. A file that does not exist is `None`.

Modelling choices:

- **Where comments and code differ, the model follows the code.**
  - The comment at `src/modules/measurement/measurement.service.ts:131`
    speaks of the WHO LMS standard. The classifier actually compares raw
    measurements with thresholds and computes no LMS Z-score.
  - The comment at `src/utils/zscore/calculator.ts:69-72` names only the
    acute indicators. The code also makes a severely stunted child
    (length-for-age MERAH) MERAH overall
    (`ZScoreCalculator.StatusAkhirIsWorstLabel`).
- **`parseCSV` is split in three:** `ParseCsv` (the BOM step), `ReadRows`
  (the loop over lines) and `ReadLine` (the loop over characters).
  `parseCSV` reads `lines[0]` unconditionally, so input without a non-blank
  line throws; that case is `None`.
- **A measurement's child is a required relation.** The database schema is
  not part of this model. `Store.Database.Valid` keeps every measurement's
  `balitaId` pointing at a stored child, and `BalitaService.Delete` is
  refused while measurement rows (soft-deleted ones included) still refer to
  the child. That is the default referential action (Restrict) for a
  required relation.
- **`undefined` leaves a column alone.** create stores an absent optional
  field as null; a sync update leaves the column as it was.
- **The seed loops are split:** `ReadDataBaru` and `ReadDataPasien` are the
  loops, and `AddBaruRow`/`AddPasienRow` are their bodies. `ReadFile` is the
  `existsSync` test.

## Model

| member | source | states |
|---|---|---|
| ZScoreConstants.BbUBoyWellFormed | src/utils/zscore/constants.ts:5-15 | boys' weight-for-age table: an entry for exactly months 0-24, every cut-off positive, -3SD strictly below -2SD |
| ZScoreConstants.BbUGirlWellFormed | src/utils/zscore/constants.ts:18-27 | the same for the girls' weight-for-age table |
| ZScoreConstants.TbUBoyWellFormed | src/utils/zscore/constants.ts:30-41 | the same for the boys' length-for-age table |
| ZScoreConstants.TbUGirlWellFormed | src/utils/zscore/constants.ts:44-55 | the same for the girls' length-for-age table |
| ZScoreCalculator.AgeIndex | src/utils/zscore/calculator.ts:20 | the row index is the floor of the age below 24, exactly 24 from 24 on, in 0..24 for every age >= 0 and negative for a negative age |
| ZScoreCalculator.RowsExist | src/utils/zscore/calculator.ts:20-36 | for every age >= 0 the row read exists in the weight and length tables of either sex, with -3SD < -2SD |
| ZScoreCalculator.Ladder | src/utils/zscore/calculator.ts:27-33 | MERAH iff strictly below -3SD, KUNING iff between -3SD (inclusive) and -2SD (exclusive), each score with its own label; a missing row never escalates |
| ZScoreCalculator.WeightForAgeBands | src/utils/zscore/calculator.ts:23-33 | weight-for-age against the row chosen for age and sex: the three bands with strict `<`, so a weight on a threshold gets the milder band, and labels matching scores |
| ZScoreCalculator.LengthForAgeBands | src/utils/zscore/calculator.ts:36-46 | length-for-age: the same ladder with the stunting labels |
| ZScoreCalculator.WeightForLength | src/utils/zscore/calculator.ts:55-67 | MERAH iff weight < 0.8 x reference, KUNING iff between 0.8 x reference and the reference, HIJAU otherwise |
| ZScoreCalculator.Worst | src/utils/zscore/calculator.ts:74-83 | the combined score is one of the three and at least as severe as each |
| ZScoreCalculator.CalculateAnthropometry | src/utils/zscore/calculator.ts:13-91 | each indicator's label is one of exactly three for that indicator; there is no overweight or tall band |
| ZScoreCalculator.TextInjective | src/utils/zscore/calculator.ts:24-67 | distinct labels are stored as distinct strings |
| ZScoreCalculator.NegativeAgeIsNormal | src/utils/zscore/calculator.ts:27-46 | a negative age reads outside the tables and both age-based indicators are "Normal"/HIJAU |
| ZScoreCalculator.AgeCappedAt24 | src/utils/zscore/calculator.ts:20 | every age >= 24 is classified exactly as age 24 |
| ZScoreCalculator.NonBoyIsGirl | src/utils/zscore/calculator.ts:19-36 | every sex other than "L" gives the same result as "P" |
| ZScoreCalculator.WeightForLengthIgnoresAgeAndSex | src/utils/zscore/calculator.ts:55-67 | the weight-for-length label depends on neither age nor sex |
| ZScoreCalculator.StatusAkhirIsWorstLabel | src/utils/zscore/calculator.ts:74-83 | statusAkhir is the maximum severity of the three labels: MERAH iff some label is severe, KUNING iff none is severe and one is moderate, HIJAU iff all are "Normal" |
| ZScoreCalculator.WeightForAgeMonotone | src/utils/zscore/calculator.ts:27-33 | a heavier child never gets a worse weight-for-age score |
| ZScoreCalculator.LengthForAgeMonotone | src/utils/zscore/calculator.ts:40-46 | a taller child never gets a worse length-for-age score |
| ZScoreCalculator.WeightForLengthMonotone | src/utils/zscore/calculator.ts:59-67 | more weight never worsens weight-for-length; more length at the same weight never improves it |
| ZScoreCalculator.WorstMonotone | src/utils/zscore/calculator.ts:74-83 | worsening one indicator never improves the combined score |
| Calendar.AgeInMonths | src/modules/measurement/measurement.service.ts:331-338 | the age is never negative and is either 0 or the month span 12 x years + month difference |
| Calendar.FutureBirthIsZero | src/modules/measurement/measurement.service.ts:331-338 | a birth date after today gives age 0 |
| Calendar.PastBirthIsSpan | src/modules/balita/balita.service.ts:212-219 | a birth date not after today gives exactly the month span |
| Calendar.AgeIgnoresDay | src/modules/balita/balita.service.ts:212-219 | the day of the month plays no part |
| Calendar.AgeMonotoneInToday | src/modules/measurement/measurement.service.ts:331-338 | the age never decreases as today moves forward |
| Pagination.TotalPages | src/modules/measurement/measurement.service.ts:89 | `Math.ceil(total / limit)`: the least integer not below the real quotient; not finite exactly when limit is 0 |
| Pagination.PagesCoverRows | src/modules/balita/balita.service.ts:29 | with a positive limit every row lies on exactly one page in 1..totalPages, and pages start `limit` rows apart |
| Pagination.PageMeta | src/modules/balita/balita.service.ts:83-88 | the meta echoes page, limit and total; with a positive limit totalPages is the least page count holding every row |
| MeasurementService.FindAllWhere | src/modules/measurement/measurement.service.ts:41-54 | a RELAWAN caller is always restricted to their own id; other callers get a relawan condition iff they gave a truthy one; absent filters add nothing |
| MeasurementService.FindAllSelects | src/modules/measurement/measurement.service.ts:43-54 | a row is listed iff it meets the role condition and every filter given, with strict `gt` on the dates |
| MeasurementService.RelawanSeesOnlyOwn | src/modules/measurement/measurement.service.ts:43-49 | a RELAWAN caller never sees another relawan's measurement, whatever relawanId was requested |
| MeasurementService.FindAllQuery | src/modules/measurement/measurement.service.ts:40-60 | the query sends exactly the role-restricted filter of FindAllWhere (so FindAllSelects and RelawanSeesOnlyOwn describe its rows), takes `limit` rows and skips `(page - 1) x limit` rows, a non-negative number for a page >= 1 |
| MeasurementService.CreatedRow | src/modules/measurement/measurement.service.ts:140-147 | the created row stores every input field declared at lines 6-21, including `localId`, `notes`, `sanitationData` and `medicalHistoryData` unchanged, and exactly the calculator's statuses for the child's age and sex |
| MeasurementService.Create | src/modules/measurement/measurement.service.ts:121-164 | 404 and nothing written for a missing child; otherwise exactly one new row, under a fresh id, with server-computed statuses |
| MeasurementService.LocalIds | src/modules/measurement/measurement.service.ts:167 | every truthy localId of the batch is looked up, and the empty one never is |
| MeasurementService.ExistingMap | src/modules/measurement/measurement.service.ts:168-173 | maps each looked-up localId present in the table to the id of a row carrying it, and only those |
| MeasurementService.SyncData | src/modules/measurement/measurement.service.ts:199-206 | the written data keeps the record and carries the server's assessment and `isSynced = true` |
| MeasurementService.Partition | src/modules/measurement/measurement.service.ts:187-219 | the loop builds exactly the create and update lists, and their lengths add up to the number of records whose child exists |
| MeasurementService.NoLocalIdIsCreated | src/modules/measurement/measurement.service.ts:208-218 | a record without a truthy localId never matches an existing row and is created |
| MeasurementService.SyncedDataIsServerComputed | src/modules/measurement/measurement.service.ts:199-206 | every record in either list has `isSynced = true` and statuses recomputed on the server from its own child |
| MeasurementService.UpdateRow | src/modules/measurement/measurement.service.ts:210-215 | an update keeps the row's id, creation time and tombstone, stores the synced data, and keeps each optional column (`notes`, `sanitationData`, `medicalHistoryData`, `localId`) the record leaves undefined |
| MeasurementService.ApplyUpdate | src/modules/measurement/measurement.service.ts:211-214 | an update never adds, removes or renumbers rows |
| MeasurementService.ApplyUpdates | src/modules/measurement/measurement.service.ts:226-228 | the update transaction keeps the table's length and every row's id |
| MeasurementService.NewRows | src/modules/measurement/measurement.service.ts:222-224 | createMany inserts one row per create, in order, under consecutive fresh ids |
| MeasurementService.PlanSync | src/modules/measurement/measurement.service.ts:167-181 | the reads before writing give the partition of the batch, with created + updated equal to the known records and at most the batch length |
| MeasurementService.BatchChildren | src/modules/measurement/measurement.service.ts:174-181 | the batch's child map holds exactly the batch's children that exist, with their stored rows |
| MeasurementService.BatchLookupAgrees | src/modules/measurement/measurement.service.ts:177-189 | looking children up in the batch's map partitions the batch exactly as the whole table would |
| MeasurementService.SyncKeepsLinks | src/modules/measurement/measurement.service.ts:186-227 | inserting the creates and running the updates, all for known children, leaves every measurement linked to a stored child |
| MeasurementService.UpdatesKeepLinks | src/modules/measurement/measurement.service.ts:210-228 | updates whose records name stored children keep every measurement linked |
| MeasurementService.SyncFromOffline | src/modules/measurement/measurement.service.ts:166-235 | the new table is the old one plus the creates, then updated in place; returns the two counts, whose sum is the number of known records |
| MeasurementService.DeltaSync | src/modules/measurement/measurement.service.ts:237-268 | a row is returned iff it changed or was soft-deleted after lastSync and belongs to the given relawan |
| MeasurementService.TombstonesAreSent | src/modules/measurement/measurement.service.ts:239 | a row soft-deleted after lastSync is always sent, even if not updated |
| MeasurementService.StatusCounts | src/modules/measurement/measurement.service.ts:301-309 | each status's count is the last group's count for it, 0 when there is none |
| MeasurementService.StatusCountOfGroup | src/modules/measurement/measurement.service.ts:307-309 | with one group per status, a status's count is its group's count, 0 when absent |
| BalitaService.FindAllWhere | src/modules/balita/balita.service.ts:30-39 | village, posko and search filters apply iff truthy, so 0 and "" count as absent |
| BalitaService.FindAllSelects | src/modules/balita/balita.service.ts:32-39 | a child is listed iff it is in the given village and posko and the search occurs, ignoring case, in the child's or the parent's name |
| BalitaService.SearchIgnoresCase | src/modules/balita/balita.service.ts:36-37 | lower-casing either side first changes nothing |
| BalitaService.FindAllQuery | src/modules/balita/balita.service.ts:29-45 | the query uses the built filter, takes `limit` rows and skips `(page - 1) x limit` rows, a non-negative number for a page >= 1 |
| BalitaService.WithAge | src/modules/balita/balita.service.ts:76-79 | same rows, same order and number, each unchanged and carrying its age in months |
| BalitaService.MeasurementsOf | src/modules/balita/balita.service.ts:98-108 | exactly the child's measurements |
| BalitaService.FindById | src/modules/balita/balita.service.ts:92-120 | 404 iff the child is missing; otherwise the stored child, its age and exactly its measurements |
| BalitaService.NewBalita | src/modules/balita/balita.service.ts:143-144 | the created row carries every field of the input under the new id |
| BalitaService.CreateCheck | src/modules/balita/balita.service.ts:122-141 | no error iff the village exists and a given posko exists; 404 for a missing village; 404 for a missing truthy posko |
| BalitaService.Create | src/modules/balita/balita.service.ts:122-166 | on a failed check nothing is written; otherwise one new child under a fresh id, returned with its age |
| BalitaService.Patched | src/modules/balita/balita.service.ts:175-177 | every given field replaced, every absent field and the id kept |
| BalitaService.PatchedLaws | src/modules/balita/balita.service.ts:175-177 | an empty update changes nothing and an update is idempotent |
| BalitaService.Update | src/modules/balita/balita.service.ts:168-199 | 404 and nothing changed for a missing child; otherwise the patched row replaces the old one unless a foreign key breaks |
| BalitaService.Delete | src/modules/balita/balita.service.ts:201-210 | 404 and nothing changed for a missing child; a foreign-key refusal and nothing changed while some measurement row refers to the child; otherwise exactly that row is removed; no measurement is ever left without its child |
| BalitaService.HasMeasurementsIffListed | src/modules/balita/balita.service.ts:201-210 | the rows that block a delete are exactly the measurements findById (lines 92-120) lists for the child |
| BalitaService.RemoveKeepsLinks | src/modules/balita/balita.service.ts:208 | removing a child with no measurement rows keeps every measurement linked to a stored child |
| Auth.SignVerify | src/modules/auth/auth.service.ts:177-193 | a signed token verifies with its payload under its own key for exactly its lifetime, and never under the other key |
| Auth.WithoutResetsOf | src/modules/auth/auth.service.ts:231-233 | exactly the user's reset records are deleted, the others kept unchanged |
| Auth.UpdateKeepsConsistent | src/modules/auth/auth.service.ts:90-93 | rewriting one user's password or session keeps users, email index and resets consistent |
| Auth.RotationKeepsConsistent | src/modules/auth/auth.service.ts:136-143 | storing the new refresh token keeps the tables consistent, and the presented token no longer matches |
| Auth.AddUserKeepsConsistent | src/modules/auth/auth.service.ts:45-59 | a new user under a fresh id and an unused email keeps the tables consistent |
| Auth.AddResetKeepsConsistent | src/modules/auth/auth.service.ts:236-242 | a reset for a user who has none keeps at most one reset per user |
| Auth.BcryptInput | src/modules/auth/auth.service.ts:122 | bcrypt hashes a prefix of at most 72 characters, the whole text when it is short enough |
| Auth.LongTokensCollide | src/modules/auth/auth.service.ts:122 | two tokens agreeing on their first 72 characters compare equal |
| Auth.RotatedTokenStillMatches | src/modules/auth/auth.service.ts:122-134 | a rotated-out refresh token still matches its successor's hash, so reuse goes undetected |
| Auth.AuthService.Register | src/modules/auth/auth.service.ts:34-62 | 409 and no user for a taken email; otherwise one new user with the hashed password, default role and no session |
| Auth.AuthService.Login | src/modules/auth/auth.service.ts:64-104 | the same 401 for an unknown email and a wrong password; 400 when unverified; otherwise the user's id, email, name and role with a new pair whose refresh hash replaces the stored one |
| Auth.AuthService.RefreshToken | src/modules/auth/auth.service.ts:106-156 | 403 and nothing changed for a bad token or no session; a non-matching token revokes the session, then 403; a matching one is rotated, after which it no longer matches |
| Auth.AuthService.Logout | src/modules/auth/auth.service.ts:158-163 | the user's stored refresh token is cleared, all else kept |
| Auth.AuthService.LogoutByRefreshToken | src/modules/auth/auth.service.ts:169-175 | a verifying refresh token clears its user's session; a failing one changes nothing |
| Auth.AuthService.ForgotPassword | src/modules/auth/auth.service.ts:215-247 | unknown email: nothing changes; otherwise the user's resets are replaced by one expiring in an hour, stored under the token's digest |
| Auth.AuthService.ResetPassword | src/modules/auth/auth.service.ts:249-278 | unknown or expired token (expiry strictly before now): 400, nothing changes; otherwise new password, session revoked, record deleted |
| AuthMiddleware.HeaderToken | src/middlewares/auth.ts:17-28 | a header token exists only for a `Bearer ` header, and it is non-empty, space-free and neither "undefined" nor "null" |
| AuthMiddleware.BearerHeaderRoundTrip | src/middlewares/auth.ts:18-27 | `Bearer <token>` followed by anything after a space offers exactly `<token>` when acceptable |
| AuthMiddleware.SelectToken | src/middlewares/auth.ts:17-33 | the header's token wins; the cookie is used only without one; an empty token is never chosen |
| AuthMiddleware.PlaceholderFallsBackToCookie | src/middlewares/auth.ts:21-33 | a header token "undefined" or "null" falls back to the cookie |
| AuthMiddleware.Authenticate | src/middlewares/auth.ts:8-50 | no token: 401; JsonWebTokenError: 401; other errors passed on; success sets `req.user` to the payload, which is written on no other path |
| AuthMiddleware.Authorize | src/middlewares/auth.ts:52-66 | passes iff a user is present with an allowed role; 401 without a user, 403 for a role not allowed |
| AuthMiddleware.AuthorizeMonotone | src/middlewares/auth.ts:59-64 | allowing more roles never turns a pass into a refusal |
| JsStrings.Trim | prisma/seed.ts:45 | the result has no whitespace at either end, holds only characters of the input, and is empty iff the input is all whitespace |
| JsStrings.Split | src/middlewares/auth.ts:19 | one piece more than there are separators, and no piece holds a separator |
| JsStrings.SplitJoin | prisma/seed.ts:27 | joining the pieces with the separator gives back the input |
| JsStrings.SplitOfJoin | prisma/seed.ts:70 | splitting separator-free pieces joined with a separator gives the pieces back |
| JsStrings.TrimIdempotent | prisma/seed.ts:45 | trimming twice is trimming once |
| SeedCsv.SplitLines | prisma/seed.ts:27 | one piece more than there are line feeds, and no piece holds a line feed |
| SeedCsv.BlankIsTrimmedEmpty | prisma/seed.ts:27 | a line is dropped iff it is empty after trimming |
| SeedCsv.NonBlankKeeps | prisma/seed.ts:27 | the filter keeps exactly the non-blank lines, and keeps an all-non-blank list as it is |
| SeedCsv.WithoutBom | prisma/seed.ts:29-31 | only the first line loses a leading U+FEFF; all other lines are kept |
| SeedCsv.DropQuoteEnds | prisma/seed.ts:45 | removes characters only, and leaves quote-free text as it is |
| SeedCsv.CsvRows | prisma/seed.ts:26-56 | no result iff there is no non-blank line; otherwise one row per non-blank line |
| SeedCsv.ParseCsv | prisma/seed.ts:26-56 | the loops compute exactly the rows of CsvRows |
| SeedCsv.ReadRows | prisma/seed.ts:35-53 | one row per line, in order, each the fields of its line |
| SeedCsv.ReadLine | prisma/seed.ts:36-52 | the character loop yields exactly the fields of the line |
| SeedCsv.ScanParity | prisma/seed.ts:42-43 | inside quotes iff an odd number of quotes has been read |
| SeedCsv.RowLength | prisma/seed.ts:44-46 | the fields closed so far are the commas read outside quotes |
| SeedCsv.FieldCount | prisma/seed.ts:40-52 | a row has one field more than its commas outside quotes |
| SeedCsv.ScanInvariant | prisma/seed.ts:40-50 | no quote character is ever accumulated |
| SeedCsv.CleanQuoteFree | prisma/seed.ts:45 | on quote-free text the cleaning is exactly trimming |
| SeedCsv.FieldsAreClean | prisma/seed.ts:45-51 | no field holds a quote and every field is trimmed |
| SeedCsv.ScanWithoutQuotes | prisma/seed.ts:40-50 | without quotes the line is cut at every comma |
| SeedCsv.FieldsWithoutQuotes | prisma/seed.ts:40-52 | without quotes the fields are the trimmed comma-separated pieces |
| SeedCsv.FieldsOfJoin | prisma/seed.ts:35-53 | trimmed fields free of commas and quotes, joined with commas, read back as the same fields |
| SeedCsv.LinesOfJoin | prisma/seed.ts:27 | non-blank lines joined with line feeds read back as the same lines |
| SeedValues.LeadingDigits | prisma/seed.ts:62 | the longest all-digit prefix |
| SeedValues.ReplaceFirst | prisma/seed.ts:61 | length kept, and text without the pattern unchanged |
| SeedValues.KeepNumeric | prisma/seed.ts:61 | only digits and dots remain, and text made of them is unchanged |
| SeedValues.ParseNumber | prisma/seed.ts:58-64 | no number for a missing, empty or "-" cell; every number read is non-negative |
| SeedValues.WholeNumber | prisma/seed.ts:58-64 | a string of digits reads as its value |
| SeedValues.DecimalPoint | prisma/seed.ts:62 | `whole.frac` reads as its exact decimal value |
| SeedValues.DecimalComma | prisma/seed.ts:60-62 | "3,8" reads as 3.8, the same as "3.8" |
| SeedValues.MinusDropped | prisma/seed.ts:61 | a minus sign is dropped, so a negative cell reads as its absolute value |
| SeedValues.UnitIgnored | prisma/seed.ts:61-62 | trailing text with no digit, dot or comma (a unit) does not change the reading |
| SeedValues.ParseDate | prisma/seed.ts:66-83 | a date is produced only for a non-empty, non-"-" cell with exactly three parts |
| SeedValues.YearFirst | prisma/seed.ts:66-83 | the text handed to `Date` always has three parts, year first |
| SeedValues.DayFirst | prisma/seed.ts:70-76 | DD-MM-YYYY and DD/MM/YYYY become YYYY-MM-DD |
| SeedValues.YearFirstKept | prisma/seed.ts:78-80 | a year-first date is passed on as written unless its last part also has four characters |
| SeedMerge.PoskosIn | prisma/seed.ts:205 | exactly the village's poskos |
| SeedMerge.RandomPlacement | prisma/seed.ts:203-211 | the village is one of the villages, and the posko belongs to it; no posko only when the village has none |
| SeedMerge.Cell | prisma/seed.ts:238-243 | a cell is present iff its column exists, and is that column's text |
| SeedMerge.BaruRowReads | prisma/seed.ts:234-272 | a first-file row is read iff it has 3 columns, a parsable date and a real name; it sets the key, the parent or its default, and one measurement |
| SeedMerge.PasienRowReads | prisma/seed.ts:282-333 | a second-file row is read iff it has 4 columns, a parsable date and a real name; its measurement note carries the NIK and the remark |
| SeedMerge.SetEntry | prisma/seed.ts:256-272 | `Map.set` replaces the key's value and leaves other entries unchanged |
| SeedMerge.PushMeasurement | prisma/seed.ts:305-313 | the entry gains one measurement at the end; all else is unchanged |
| SeedMerge.BalitaMap.Set | prisma/seed.ts:256-272 | the map's entries and order become those of SetEntry |
| SeedMerge.BalitaMap.Push | prisma/seed.ts:305-313 | the map becomes that of PushMeasurement |
| SeedMerge.ReadDataBaru | prisma/seed.ts:234-273 | the loop leaves the map as all first-file rows after the header applied in order |
| SeedMerge.AddBaruRow | prisma/seed.ts:256-272 | a read row sets its entry, a skipped row changes nothing |
| SeedMerge.ReadDataPasien | prisma/seed.ts:282-334 | the loop leaves the map as all second-file rows after the header applied in order |
| SeedMerge.AddPasienRow | prisma/seed.ts:305-333 | a known key gets the measurement appended, a new key is set with it |
| SeedMerge.ReadFile | prisma/seed.ts:228-231 | a missing file gives no rows, an existing one its parsed rows |
| SeedMerge.CollectBalitas | prisma/seed.ts:225-335 | fails exactly when reading an existing file fails; otherwise the map holds the first file's rows applied in order, then the second's |
| SeedMerge.BaruRowSound | prisma/seed.ts:245-246 | a read first-file row has a real name and non-negative numbers |
| SeedMerge.PasienRowSound | prisma/seed.ts:295-303 | a read second-file row has a real name and non-negative numbers |
| SeedMerge.BaruKeepsWellFormed | prisma/seed.ts:234-273 | reading the first file keeps each key once in the order, names real and numbers non-negative |
| SeedMerge.PasienKeepsWellFormed | prisma/seed.ts:282-334 | reading the second file keeps the same |
| SeedMerge.CollectWellFormed | prisma/seed.ts:225-335 | the merged map lists each child once, with a real name and non-negative numbers |
| SeedMerge.BaruLastRowWins | prisma/seed.ts:256-272 | in the first file the last readable row of a child decides its entry |
| SeedMerge.ReplayLastWins | prisma/seed.ts:256 | of several `set`s, the last under a key decides its entry |
| SeedMerge.PasienOnlyAppends | prisma/seed.ts:305-313 | the second file changes a child already in the map only by appending measurements |
| SeedMerge.OrderGrows | prisma/seed.ts:256 | neither file moves an existing key; new keys go last |
| SeedMerge.PasienMeasurementCount | prisma/seed.ts:305-333 | a child ends with its earlier measurements plus one per second-file row with its key, and a new key appears iff some row carries it |
| SeedInsert.LyingUnderTwo | prisma/seed.ts:357-369 | lying down iff the child is under 24 script months (63 120 384 000 ms) |
| SeedInsert.Plan | prisma/seed.ts:340-391 | never more child rows than keys visited |
| SeedInsert.FirstRejectedFrom | prisma/seed.ts:340-352 | the first child from a given place on whose birth date the database refuses; every named child before it is accepted |
| SeedInsert.CompletesIffAllAccepted | prisma/seed.ts:340-400 | the insert step runs to the end exactly when no named child has an unreadable birth date |
| SeedInsert.InsertAll | prisma/seed.ts:340-400 | the loop creates exactly the planned children, in the map's order, up to the first child the database refuses for an Invalid Date birth date; that refusal ends the script as a failure |
| SeedInsert.PlanLength | prisma/seed.ts:340-341 | on a well-formed map every key gives a child row |
| SeedInsert.PlanRow | prisma/seed.ts:340-352 | the k-th created child is made from the entry under the k-th key |
| SeedInsert.NoChildSkipped | prisma/seed.ts:340-352 | one child row per key, in order, carrying that entry's fields |
| SeedInsert.SeededOf | prisma/seed.ts:354-355 | never more measurement rows than measurements |
| SeedInsert.SeededCount | prisma/seed.ts:354-355 | a measurement row is created exactly for each measurement with a truthy weight or height |
| SeedInsert.SeededAreMeasured | prisma/seed.ts:355-368 | every created measurement has a positive weight or height |

## Left out

- Prisma itself is not modelled: queries, relations, `include`/`select`
  shaping, `orderBy` and transactions. Tables are maps and sequences. A
  list query is stated as the predicate its `where` selects.
- The ordering of list results (`orderBy: createdAt desc`) and `take`/`skip`
  slicing are not modelled. Only the `where`, `skip` and `take` values sent
  are.
- Floating point is not modelled: measurements, ages and thresholds are
  exact reals.
- The seed script's float age `(now - birth) / (1000·60·60·24·30.44)` is
  modelled as an exact comparison of milliseconds.
- `parseFloat` is modelled only on the digit-and-dot text `parseNumber`
  hands it; NaN is `None`.
- `Date` parsing, time zones and `getTime` are not modelled. The birth date
  is the text handed to `Date`, and its timestamp is a parameter (`timeOf`);
  an invalid date is `None`.
- The year, month and day of "today" are inputs, not derived from a clock.
- `toLowerCase` and the database's case-insensitive `contains` are modelled
  on ASCII letters only; there is no Unicode case folding.
- Randomness is a parameter:
  - faker's village, posko and sex draws;
  - `crypto.randomBytes` in forgotPassword.
- The seed script's random z-score statuses and `statusAkhir` are not
  modelled.
- Two tokens signed in the same second with the same payload are
  byte-identical in reality. The model distinguishes them by an issue serial.
- SeedInsert.InsertAll: does not model the database ids of the created
  children or their database writes; it returns the rows it creates and
  whether the script failed. A failure of another kind (a lost connection,
  a constraint) is not modelled.
- Auth.AuthService.Login: bcryptjs reads only the first 72 bytes of a
  password, and no maximum length is enforced, so a password that agrees
  with the stored one on its first 72 UTF-8 bytes logs in. The model's
  bcrypt is injective, so Login, Register and ResetPassword do not capture
  that truncation (for tokens it is modelled, see Findings).
- Auth.SignVerify: "never under the other key" holds because JWT_SECRET and
  JWT_REFRESH_SECRET are taken to be different keys. That is true of their
  fallback values (`src/config/env.ts:8-11`), not guaranteed when both are
  set from the environment to the same text.
- Email sending in forgotPassword is not modelled. The method returns the
  plain token the email would carry.
- The seed script's steps 1-4 are not modelled: database cleanup, user,
  village and posko creation, and the `relawan@sigana.id` lookup. The
  relawan id, village ids and poskos are inputs.
- getProfile, getStatistics' other counts, `findById` and `delete` of the
  measurement service, and the user, village and posko services are not
  modelled. They are Prisma-shaped reads and deletes with the same 404 pattern
  as the child service.
- The LMS tables in `src/utils/zscore/standards.ts` are not modelled. The
  classifier does not use them.
- Auth.AuthService.RefreshToken: compares whole tokens, the intended
  behaviour. The 72-byte truncation bcryptjs applies is modelled separately
  (see Findings).
- The measurement sync's `createMany` and `$transaction` are modelled as
  applied all at once. Partial failure and concurrent batches are not
  modelled.
- AuthMiddleware.Authenticate: the token verifier is a parameter.
  `jwt.verify` with JWT_SECRET is not modelled inside it; `Auth.Verify` is
  the service-side model of it.
- ZScoreCalculator.MinWeightForHeight: states only that the reference weight
  is non-negative; WeightForLength states its use.

## Findings

| source | as written | input that shows it | evidently intended | confidence | as-written member | corrected member |
|---|---|---|---|---|---|---|
| src/modules/auth/auth.service.ts:122-134 | `bcrypt.compare(token, storedHash)` checks a refresh token against the stored hash. bcryptjs reads only the first 72 bytes, and a token's first 72 characters are the fixed HS256 header plus the start of the `{"userId":"…` payload. So every refresh token of a user compares equal to every other | `Auth.TokenHead + Auth.TokenBody + Auth.EarlierTail` presented after rotation to `Auth.TokenHead + Auth.TokenBody + Auth.LaterTail` | a rotated-out refresh token is detected as reuse and revokes the session | not executed | Auth.RotatedTokenStillMatches | Auth.RotationKeepsConsistent |
