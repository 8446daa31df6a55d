# Healthcare server business rules, in Dafny

This project models the server-side rules of a small healthcare booking service (an Express
and MongoDB back end) and proves properties of them. The database, bcrypt, JSON Web Tokens
and the Gemini model are replaced by in-memory stores and by functions passed in as
parameters. The modules are:

- **Appointments and AppointmentModel** — the appointment ledger. Booking runs its checks in
  order: missing fields, unknown doctor, unavailable doctor, then a slot taken by a pending or
  confirmed booking. Rescheduling refuses completed and cancelled appointments. Cancelling
  only changes the status and works from any status. Every read and write is scoped to the
  owner. `Appointments.Ledger` is the store; each of its methods is tied to a pure transition
  function.
- **Doctors and DoctorModel** — the doctor directory: the conjunctive list filter sorted by
  rating, lookup by id, the distinct specialties, and the schema bounds and defaults.
- **UserModel, AuthRoutes, AuthMiddleware and Crypto** — accounts and sessions:
  - registration and login, the `/me` and profile-update handlers;
  - the user schema's validators and its pre-save hashing;
  - bearer-token extraction and the two request guards (`protect`, `optionalAuth`).

  bcrypt and the token signer are records of functions (`Crypto.Hasher`, `Crypto.Signer`).
  The ghost predicates `SoundHasher` and `SoundSigner` state what is assumed of them.
- **ConsultationModel, Gemini and AiRoutes** — the symptom analyser and the consultation log:
  - the consultation schema;
  - the prompt substitution, the reply cleaner, and the fallback analysis;
  - the analyse endpoint, which appends to `AiRoutes.ConsultationLog`;
  - the owner-scoped history (newest first, at most 50), lookup by id, and the health endpoint.
- **Medicines** — the medicine catalogue paging handler: criteria choice (text search, then
  a name match when text search counts nothing), name order, skip and limit, the page count,
  and lookup by id.
- **ErrorHandler** — the error response shape and the not-found error.
- **SeedMedicines** — the catalogue seeder: the per-row cleaning, the named-record filter,
  and the clear-then-insert-in-batches-of-1000 step, over a `Collection` class.
- Shared modules:
  - `Wrappers`: `Option`, `Result`, HTTP replies, and the environment (an unset variable is "");
  - `Text`: trimming, ASCII case mapping, splitting, ordering, and the UTF-16 length JavaScript reports;
  - `Sorting`: an insertion sort by a total preorder.

Stored documents carry a natural-number id that the store hands out in increasing order.
Dates and timestamps are integers compared by order.

## Model

| member | source | states |
|---|---|---|
| AppointmentModel.ParseStatus | server/src/models/Appointment.ts:3 | exactly the four status names are accepted, each naming its status |
| AppointmentModel.ParseType | server/src/models/Appointment.ts:4 | exactly the four type names are accepted, each naming its type |
| AppointmentModel.StatusNamesRoundTrip | server/src/models/Appointment.ts:3 | parsing a status's name gives the status back |
| AppointmentModel.TypeNamesRoundTrip | server/src/models/Appointment.ts:4 | parsing a type's name gives the type back |
| AppointmentModel.Materialize | server/src/models/Appointment.ts:23-62 | a draft is accepted iff doctorName and time are present and a given type and status are valid enum names; the record then has every required field, type defaults to consultation, status to pending, symptoms and notes to "" |
| Appointments.BookResult | server/src/routes/appointments.ts:35-96 | missing doctorId, date or time gives 400 before any lookup; with the doctor found and available and the slot free, the booking succeeds (201) iff the doctor has a name and a given type is a valid type name; success implies those checks passed and the record is pending, owned by the caller, carries the doctor's name, the given type (consultation by default), symptoms "" by default; every failure is 400, 404 or 500 |
| Appointments.DoctorChecksInOrder | server/src/routes/appointments.ts:47-63 | with all fields present, an unknown doctor gives 404 and an unavailable one 400, in that order |
| Appointments.ConflictOnlyFromActive | server/src/routes/appointments.ts:66-79 | a pending or confirmed booking of the same doctor, date and time gives 400; completed or cancelled ones never cause it |
| Appointments.BookKeepsSlotsUnique | server/src/routes/appointments.ts:66-91 | a successful booking keeps "at most one active booking per doctor, date and time" |
| Appointments.SecondBookingRefused | server/src/routes/appointments.ts:66-79 | right after a booking, any caller's booking of the same slot is refused with 400 |
| Appointments.Owned | server/src/routes/appointments.ts:16 | holds each of the caller's appointments exactly as often as the store does, and nothing else |
| Appointments.ByDateDesc | server/src/routes/appointments.ts:18 | the date-descending order is total and transitive |
| Appointments.ListAppointments | server/src/routes/appointments.ts:16-24 | exactly the caller's appointments (as a multiset), dates non-increasing |
| Appointments.IndexOwned | server/src/routes/appointments.ts:107-110 | finds a record with the id owned by the caller, or shows none exists |
| Appointments.IndexOwnedKeys | server/src/routes/appointments.ts:136-139 | the owner-scoped lookup depends only on ids and owners |
| Appointments.GetAppointment | server/src/routes/appointments.ts:107-123 | success iff the caller owns a record with that id, which is returned; otherwise 404 |
| Appointments.Reschedule | server/src/routes/appointments.ts:159-162 | date, time, notes and symptoms are replaced only when given as truthy values; id, owner, doctor, type and status never change |
| Appointments.UpdateResult | server/src/routes/appointments.ts:134-169 | 404 iff the caller owns no record with the id; 400 only for the caller's completed or cancelled record; failures leave the store unchanged; success replaces exactly the caller's non-terminal record with its rescheduled version |
| Appointments.UpdateRefusesTerminal | server/src/routes/appointments.ts:150-162 | with unique ids, the update of the caller's record answers 400 iff it is completed or cancelled, and otherwise returns the rescheduled record |
| Appointments.UpdateCanBreakSlotsUnique | server/src/routes/appointments.ts:159-160 | there is a store with unique active slots that a successful update leaves with two active bookings in one slot |
| Appointments.CancelResult | server/src/routes/appointments.ts:180-200 | success iff the caller owns a record with the id, which alone is set to cancelled; otherwise 404 with the store unchanged; no record is ever removed |
| Appointments.CancelAnyStatusSucceeds | server/src/routes/appointments.ts:180-200 | with unique ids, the caller's appointment is cancelled from any status, completed and cancelled included, and no other record changes |
| Appointments.CancelIdempotent | server/src/routes/appointments.ts:193-195 | cancelling twice leaves the same store as cancelling once |
| Appointments.CancelKeepsSlotsUnique | server/src/routes/appointments.ts:193-195 | cancelling keeps the one-active-booking-per-slot invariant |
| Appointments.BookThenList | server/src/routes/appointments.ts:16-18 | after a first booking, the owner's list is exactly that pending appointment |
| Appointments.Ledger.constructor | server/src/routes/appointments.ts:82 | an empty ledger |
| Appointments.Ledger.Create | server/src/routes/appointments.ts:82-96 | the reply is BookResult of the old store; exactly one record is appended on success and none otherwise |
| Appointments.Ledger.Update | server/src/routes/appointments.ts:159-164 | the reply and the new store are UpdateResult of the old store |
| Appointments.Ledger.Cancel | server/src/routes/appointments.ts:193-195 | the reply and the new store are CancelResult of the old store |
| DoctorModel.Violations | server/src/models/Doctor.ts:22-68 | no violation iff name, specialty, experience, email and phone are present, rating is in [0, 5] and the fee is at least 0 |
| DoctorModel.CreateDoctor | server/src/models/Doctor.ts:20-77 | creation succeeds iff the trimmed, lower-cased and defaulted fields have no violation, and otherwise fails with those violations; a created doctor is valid, keeps every given field (name and specialty trimmed, email lower-cased and trimmed) and takes the defaults for the others: rating 4.5, fee 500, available, English and Hindi, bio "", the stock image |
| DoctorModel.DefaultsApplied | server/src/models/Doctor.ts:32-72 | a doctor given only the required fields gets every default |
| DoctorModel.LowerTrimIsLower | server/src/models/Doctor.ts:50-55 | the stored email is already lower case |
| Doctors.Select | server/src/routes/doctors.ts:16-31 | exactly the catalogue doctors that meet every filter that is on, by membership |
| Doctors.SelectCounts | server/src/routes/doctors.ts:16-33 | each matching doctor is selected exactly as often as the catalogue holds it, and no other doctor is |
| Doctors.ByRatingDesc | server/src/routes/doctors.ts:33 | the rating-descending order is total and transitive |
| Doctors.ListDoctors | server/src/routes/doctors.ts:13-33 | exactly the matching doctors (as a multiset), ratings non-increasing |
| Doctors.AvailableOnlyForTrue | server/src/routes/doctors.ts:22-24 | an availability parameter other than "true" filters nothing |
| Doctors.AllSpecialties | server/src/routes/doctors.ts:18-20 | specialty "all" or "" filters nothing |
| Doctors.NoFilterSelectsAll | server/src/routes/doctors.ts:16-33 | with no filter on, the whole catalogue is selected |
| Doctors.FindDoctor | server/src/routes/doctors.ts:49 | finds the doctor with the id or shows none exists |
| Doctors.GetDoctor | server/src/routes/doctors.ts:49-62 | success iff a doctor has the id; otherwise 404 "Doctor not found" |
| Doctors.DistinctSpecialties | server/src/routes/doctors.ts:72 | every specialty in the catalogue, each exactly once |
| Doctors.Specialties | server/src/routes/doctors.ts:72-77 | always 200, with each distinct specialty exactly once |
| UserModel.ToPublic | server/src/routes/auth.ts:65-76 | the public view carries id, name, email and phone, and no password |
| Text.Utf16Length | server/src/routes/ai.ts:19 | JavaScript's `length`: one character counts one unit inside the Basic Multilingual Plane and two outside it; between one and two units per character in general |
| Text.Utf16LengthAppend | server/src/routes/ai.ts:19 | the length of a concatenation is the sum of the lengths, so the count is exactly per character |
| UserModel.UserViolations | server/src/models/User.ts:17-42 | no violation iff the name has 2 to 50 UTF-16 code units, the email has the `\S+@\S+\.\S+` shape, the password at least 6 code units and the phone is present |
| UserModel.EmojiLengths | server/src/models/User.ts:21-35 | one emoji is a name long enough and three emoji a password long enough, since each counts as two code units |
| UserModel.EmailShapeExamples | server/src/models/User.ts:30 | the email pattern accepts "a@b.c" and refuses addresses with no '@', nothing before it, a space or a no-break space (JavaScript's `\s` covers Unicode spaces) |
| UserModel.PreSave | server/src/models/User.ts:50-62 | only the password field can change; it is re-hashed iff it was modified |
| UserModel.CreateUser | server/src/models/User.ts:15-62 | creation fails iff the normalised fields violate the schema |
| UserModel.CreatedUserFields | server/src/models/User.ts:17-57 | a created user has the trimmed name and phone, the normalised email, and the hash of the password |
| UserModel.CreatedUserValid | server/src/models/User.ts:15-47 | a created user meets every schema rule |
| UserModel.CreatedUserAcceptsOnlyItsPassword | server/src/models/User.ts:65-69 | under a sound hasher, comparePassword on a created user holds iff the candidate is its password |
| UserModel.FindById | server/src/middleware/auth.ts:49 | finds the user with the id or shows none exists |
| UserModel.EmailKeyOfLowered | server/src/routes/auth.ts:45 | lower-casing before the lookup does not change the stored-email key |
| UserModel.FindByEmail | server/src/routes/auth.ts:45 | finds a user with the email or shows none exists |
| AuthRoutes.GenerateToken | server/src/routes/auth.ts:10-25 | fails iff the secret is unset; otherwise signs exactly {id, email, name} with the configured expiry, "7d" by default |
| AuthRoutes.TokenCarriesIdentity | server/src/routes/auth.ts:17-24 | under a sound signer, the issued token verifies to the user's id, email and name |
| AuthRoutes.RegisterResult | server/src/routes/auth.ts:33-76 | missing fields give 400; an existing lower-cased email gives 400 with the store unchanged; for a new email, a user the schema accepts is appended and the answer is 201 iff the secret is set, and a refused one gives 500 with the store unchanged; success returns the public view and its token |
| AuthRoutes.RegisteredUserNormalised | server/src/routes/auth.ts:55-60 | the stored user has the next id, trimmed name and phone, normalised email and the hashed password |
| AuthRoutes.RegisteredUserValid | server/src/routes/auth.ts:55-60 | the stored user meets every schema rule |
| AuthRoutes.RegisterKeepsEmailsUnique | server/src/routes/auth.ts:45-60 | registration keeps stored emails unique |
| AuthRoutes.RegisterKeepsStoreValid | server/src/routes/auth.ts:45-60 | registration keeps emails unique and ids increasing |
| AuthRoutes.AppendKeepsIds | server/src/routes/auth.ts:55-60 | appending a user with the next id keeps ids increasing |
| AuthRoutes.RegisterRefusesNormalisedDuplicate | server/src/routes/auth.ts:45-53 | an email equal to a stored one after lower-casing and trimming is refused with 400 and nothing stored |
| AuthRoutes.RegisterWithoutSecretStoresUser | server/src/routes/auth.ts:55-63 | with no secret, registration answers 500 but the user is already stored |
| AuthRoutes.LoginResult | server/src/routes/auth.ts:86-131 | missing email or password gives 400; an unknown lower-cased email or a wrong password gives 401 "Invalid email or password"; a stored user with the right password gets 200 iff the secret is set, and 500 "JWT_SECRET is not defined" otherwise; success returns the user's public view and its token |
| AuthRoutes.LoginFailuresIndistinguishable | server/src/routes/auth.ts:98-115 | an unknown email and a wrong password give the identical 401 |
| AuthRoutes.LoginAfterRegister | server/src/routes/auth.ts:55-131 | under a sound hasher, logging in with the registered email and password returns the registration's session |
| AuthRoutes.FindByEmailAppended | server/src/routes/auth.ts:98 | a newly appended user is found by its email |
| AuthRoutes.MeResult | server/src/routes/auth.ts:142-160 | success iff the caller exists, returning its public view; otherwise 404 |
| AuthRoutes.IndexById | server/src/routes/auth.ts:173 | finds the position of the user with the id or shows none exists |
| AuthRoutes.NameUpdateViolations | server/src/models/User.ts:17-23 | on an update naming it, the name is refused when null or blank ("Name is required") and when its trimmed length, in UTF-16 code units, is outside 2 to 50 |
| AuthRoutes.PhoneUpdateViolations | server/src/models/User.ts:38-42 | on an update naming it, the phone is refused iff it is null or blank ("Phone number is required") |
| AuthRoutes.ProfileViolations | server/src/routes/auth.ts:173-177 | no violation iff the name is left out or given with 2 to 50 UTF-16 code units once trimmed, and the phone is left out or given non-blank |
| AuthRoutes.ApplyProfile | server/src/routes/auth.ts:171-177 | only name and phone change, trimmed, and only when given; id, email and hash stay |
| AuthRoutes.ProfileResult | server/src/routes/auth.ts:170-195 | a validator error gives 500 with its first message before any lookup; failures leave the store unchanged; with no violation, a missing user gives 404 and an existing one success, which updates exactly the caller's record |
| AuthRoutes.ProfileKeepsCredentials | server/src/routes/auth.ts:173-177 | no update changes any user's id, email or password hash |
| AuthRoutes.ProfileRefusesEmptyPhone | server/src/routes/auth.ts:173-177 | a given blank phone answers 500 "Phone number is required" and stores nothing, whether or not the caller exists |
| AuthRoutes.ApplyProfileKeepsValid | server/src/routes/auth.ts:173-177 | an update the validators accept keeps a valid user valid |
| AuthRoutes.ProfileKeepsUsersValid | server/src/routes/auth.ts:170-195 | after any profile update every stored user still meets the schema rules |
| AuthRoutes.UserStore.constructor | server/src/routes/auth.ts:55 | an empty store |
| AuthRoutes.UserStore.Register | server/src/routes/auth.ts:55-60 | the reply and the new store are RegisterResult of the old store |
| AuthRoutes.UserStore.UpdateProfile | server/src/routes/auth.ts:173-177 | the reply and the new store are ProfileResult of the old store |
| AuthMiddleware.ExtractToken | server/src/middleware/auth.ts:28-30 | a token is found only in a header starting with "Bearer", and it is a non-empty piece with no space |
| AuthMiddleware.BearerTokenExtracted | server/src/middleware/auth.ts:28-30 | "Bearer t" and "Bearer t rest" give t |
| AuthMiddleware.BareBearerHasNoToken | server/src/middleware/auth.ts:28-32 | "Bearer", "Bearer " and a double space give no token |
| AuthMiddleware.OtherSchemeHasNoToken | server/src/middleware/auth.ts:28 | another scheme gives no token |
| AuthMiddleware.BearerPrefixOnly | server/src/middleware/auth.ts:28-29 | only the prefix is checked: "Bearerx t" gives t |
| AuthMiddleware.ProtectOutcome | server/src/middleware/auth.ts:24-71 | every refusal is 401: no token, then a missing secret or a failed verification, then a missing user; admission requires all three and attaches the token's claims |
| AuthMiddleware.OptionalOutcome | server/src/middleware/auth.ts:80-103 | always proceeds; a user is attached iff a token is present, the secret is set and verification succeeds |
| AuthMiddleware.SignedTokenAdmitted | server/src/middleware/auth.ts:41-65 | a token signed with the secret for an existing user is admitted with its claims |
| AuthMiddleware.ProtectStricterThanOptional | server/src/middleware/auth.ts:19-103 | whatever protect admits, optionalAuth admits with the same user |
| AuthMiddleware.OptionalIgnoresRemovedUsers | server/src/middleware/auth.ts:49-56 | for a deleted user's valid token, optionalAuth attaches the claims while protect answers "User no longer exists" |
| AuthMiddleware.AuthRequest.constructor | server/src/middleware/auth.ts:5-11 | a request with no user, no answer and no next call |
| AuthMiddleware.AuthRequest.Protect | server/src/middleware/auth.ts:59-71 | on admission sets req.user to the claims and calls next once; otherwise answers 401 and leaves user and next alone |
| AuthMiddleware.AuthRequest.OptionalAuth | server/src/middleware/auth.ts:87-103 | calls next exactly once, never answers, and sets req.user only when OptionalOutcome attaches one |
| ErrorHandler.HandleError | server/src/middleware/errorHandler.ts:14-26 | status is a non-zero statusCode or 500; the message is a non-empty message or "Internal Server Error"; success is false; the stack is included iff NODE_ENV is "development" |
| ErrorHandler.NotFound | server/src/middleware/errorHandler.ts:29-33 | the error has status 404 and message "Not Found - " plus the URL |
| ErrorHandler.NotFoundAnswered | server/src/middleware/errorHandler.ts:14-33 | an unknown route is answered 404 with that message |
| ErrorHandler.ThrownErrorIs500 | server/src/middleware/errorHandler.ts:14-15 | an error without status keeps its message and answers 500 |
| ErrorHandler.StackOnlyInDevelopment | server/src/middleware/errorHandler.ts:25 | outside development no stack is sent |
| ConsultationModel.MedicineViolation | server/src/models/Consultation.ts:22-42 | no violation iff name, dosage, timing and duration are all present |
| ConsultationModel.ListViolation | server/src/models/Consultation.ts:55-62 | no violation iff every entry of the list is complete |
| ConsultationModel.CreateConsultation | server/src/models/Consultation.ts:44-75 | succeeds iff the defaulted record has symptoms and complete entries, and the stored record is then the draft with the schema defaults |
| ConsultationModel.DefaultsApplied | server/src/models/Consultation.ts:46-70 | left-out fields get user null, empty lists, aiAnalysis "", not a guest |
| ConsultationModel.SymptomsRequired | server/src/models/Consultation.ts:51-54 | missing or empty symptoms fail with "Symptoms are required" |
| ConsultationModel.IncompleteEntryRefused | server/src/models/Consultation.ts:22-42 | one incomplete entry makes creation fail |
| Gemini.FirstOccurrence | server/src/services/geminiService.ts:65 | the first position at or after the start where the placeholder occurs, or none |
| Gemini.ReplaceFirst | server/src/services/geminiService.ts:65 | without an occurrence the template is unchanged; otherwise the first occurrence is replaced by the text |
| Gemini.PromptSubstitutes | server/src/services/geminiService.ts:65 | a template with the placeholder after a head with none gives head + symptoms + tail |
| Gemini.ReplaceFirstAsWritten | server/src/services/geminiService.ts:65 | the replacement as JavaScript performs it; a template without the placeholder is unchanged |
| Gemini.ExpandPlain | server/src/services/geminiService.ts:65 | a replacement without '$' is inserted literally |
| Gemini.ExpandPlainPrefix | server/src/services/geminiService.ts:65 | a '$'-free start of the replacement is copied as it is |
| Gemini.ExpandMatched | server/src/services/geminiService.ts:65 | "$&" expands to the matched text |
| Gemini.AsWrittenAtHead | server/src/services/geminiService.ts:65 | with the placeholder first found after a head, the expanded replacement lands between head and tail |
| Gemini.AsWrittenEchoesPlaceholder | server/src/services/geminiService.ts:65 | as written, text ending in "$&" reaches the prompt with "{symptoms}" in place of "$&" |
| Gemini.AsWrittenAgreesWithoutDollar | server/src/services/geminiService.ts:65 | for symptom text without '$' the two replacements agree |
| Gemini.DollarAmpersandLosesSymptoms | server/src/services/geminiService.ts:65 | for symptom text such as "fever $&" the code as written puts "fever {symptoms}" in the prompt while the intended prompt carries "fever $&" |
| Gemini.CleanReply | server/src/services/geminiService.ts:72-82 | the cleaned reply is no longer than the reply and has no surrounding whitespace |
| Gemini.CleanUnfenced | server/src/services/geminiService.ts:72-82 | a reply that, trimmed, neither starts nor ends with a fence is only trimmed |
| Gemini.CleanFenced | server/src/services/geminiService.ts:72-82 | "```json" + b + "```" cleans to trim(b) when b does not start with a fence |
| Gemini.AnalyzePrompt | server/src/services/geminiService.ts:58-119 | the fallback without a key or when the model call fails; otherwise the parse of the cleaned reply, or the fallback when it does not parse |
| Gemini.FencedReplyParsed | server/src/services/geminiService.ts:67-87 | a reply fenced as "```json" + b + "```" is analysed as the parse of trim(b) |
| Gemini.AnalyzeSymptoms | server/src/services/geminiService.ts:57-120 | no key gives the fallback; for symptom text without '$' the result is the analysis of the prompt JavaScript's `replace` builds |
| Gemini.NoKeyIgnoresModel | server/src/services/geminiService.ts:59-61 | without a key the model is never consulted: the analysis is the fallback and the connection test fails, for every model |
| Gemini.FallbackShape | server/src/services/geminiService.ts:92-118 | the fallback is moderate, not an emergency, with 2 Ayurvedic and 1 allopathic complete entries |
| Gemini.TestConnection | server/src/services/geminiService.ts:122-135 | false without a key; with a key, true iff the model answers the test prompt |
| Gemini.FailedTestFallsBack | server/src/services/geminiService.ts:122-135 | a failed connection test means an analysis of the test prompt falls back |
| AiRoutes.AnalyzeResult | server/src/routes/ai.ts:15-53 | unacceptable symptoms give 400 before analysis; acceptable ones succeed iff every medicine entry of the analysis is complete; failures leave the log unchanged; success appends exactly one valid record holding the trimmed symptoms, the caller or null, the guest flag iff no caller, and the analysis's lists and text (empty when missing), and echoes the analysis with the disclaimer |
| AiRoutes.RefusedBeforeAnalysis | server/src/routes/ai.ts:19-25 | a refused body gives the same result whatever the key and the model |
| AiRoutes.ShortSymptomsRefused | server/src/routes/ai.ts:19 | four characters padded with whitespace, a non-string or a missing field are refused |
| AiRoutes.EmojiSymptomsAccepted | server/src/routes/ai.ts:19 | three emoji pass the five-character check, as six UTF-16 code units |
| AiRoutes.AnalyzeWithoutKeySucceeds | server/src/routes/ai.ts:28-53 | without a key, acceptable symptoms are still stored and answered with the fallback analysis |
| AiRoutes.Owned | server/src/routes/ai.ts:64 | holds each of the caller's consultations exactly as often as the log does, and nothing else |
| AiRoutes.ByCreatedDesc | server/src/routes/ai.ts:65 | the newest-first order is total and transitive |
| AiRoutes.TakeKeepsNewest | server/src/routes/ai.ts:65-66 | cutting a newest-first list drops only records no newer than those kept |
| AiRoutes.ListConsultations | server/src/routes/ai.ts:64-66 | only the caller's consultations, min(50, count) of them, newest first, and none left out is newer than one kept |
| AiRoutes.NewestCut | server/src/routes/ai.ts:65-66 | the 50 newest of a list form part of it, newest first, and never pass over a newer record for an older one |
| AiRoutes.NewestHeadsList | server/src/routes/ai.ts:64-66 | a caller's record newer than every other heads the caller's history |
| AiRoutes.GuestsNeverListed | server/src/routes/ai.ts:32-64 | a guest consultation is in nobody's history |
| AiRoutes.AnalyzeThenList | server/src/routes/ai.ts:31-66 | a signed-in caller's new consultation heads their history |
| AiRoutes.IndexOwned | server/src/routes/ai.ts:83-86 | finds the caller's consultation with the id or shows none exists |
| AiRoutes.GetConsultation | server/src/routes/ai.ts:83-99 | success iff the caller owns a consultation with that id; otherwise 404 "Consultation not found" |
| AiRoutes.Health | server/src/routes/ai.ts:106-120 | always 200 with status "operational" and the time; connected false without a key, and otherwise iff the model answers the test prompt |
| AiRoutes.ConsultationLog.constructor | server/src/routes/ai.ts:31 | an empty log |
| AiRoutes.ConsultationLog.Analyze | server/src/routes/ai.ts:31-38 | the reply and the new log are AnalyzeResult of the old log |
| Medicines.Select | server/src/routes/medicines.ts:37-42 | exactly the catalogue documents meeting the criteria, by membership |
| Medicines.SelectCounts | server/src/routes/medicines.ts:37-43 | each qualifying document is selected exactly as often as the catalogue holds it, and no other is; so the selection's length is the `countDocuments` total |
| Medicines.ChooseCriteria | server/src/routes/medicines.ts:15-35 | no query gives no criteria; a query gives text search iff some document matches it, and the name match iff none does |
| Medicines.NoQuerySelectsAll | server/src/routes/medicines.ts:15-21 | an absent or empty query selects every medicine |
| Medicines.ByNameAsc | server/src/routes/medicines.ts:40 | name order is total and transitive |
| Medicines.Ranked | server/src/routes/medicines.ts:37-40 | the qualifying documents (as a multiset) in name order |
| Medicines.PageCount | server/src/routes/medicines.ts:47 | none for limit 0; for a positive limit and total > 0, (totalPages - 1) * limit < total <= totalPages * limit; 0 pages for no documents |
| Medicines.CeilBounds | server/src/routes/medicines.ts:47 | the ceiling of total / limit is the least page count that covers the total |
| Medicines.Window | server/src/routes/medicines.ts:38-39 | the elements from skip on, at most |limit| of them (all for 0), in order |
| Medicines.Search | server/src/routes/medicines.ts:12-53 | page defaults to 1 and limit to 20; a negative skip answers 500; otherwise the page is the window of the ranked selection at (page - 1) * limit, with the selection's size and page count |
| Medicines.PageContents | server/src/routes/medicines.ts:37-40 | a page holds only qualifying catalogue medicines, in name order, at most a positive limit of them |
| Medicines.RankedQualifies | server/src/routes/medicines.ts:37-39 | the name-sorted query result holds only qualifying catalogue medicines |
| Medicines.WindowOfSorted | server/src/routes/medicines.ts:38-40 | a window of a name-ordered list is a name-ordered part of it |
| Medicines.DefaultFirstPage | server/src/routes/medicines.ts:12-13 | with no parameters the page is the first 20 medicines in name order and the count is the catalogue size |
| Medicines.PageHolds | server/src/routes/medicines.ts:13-47 | with a positive limit, page p holds at offset k the ranked element (p - 1) * limit + k, and p is within the page count |
| Medicines.GetMedicine | server/src/routes/medicines.ts:59-70 | an id that is not an ObjectId answers 500 "Server error fetching medicine details"; otherwise success iff a medicine has the id, else 404 "Medicine not found" |
| Medicines.FindMedicine | server/src/routes/medicines.ts:61 | finds the medicine with the id or shows none exists |
| SeedMedicines.Price | seed_medicines.py:51-55 | the parsed price; 0 for a missing column, a null cell or a parse failure |
| SeedMedicines.SideEffects | seed_medicines.py:58-60 | empty iff the cell is missing, null or ""; otherwise one stripped, comma-free piece per comma-separated part |
| SeedMedicines.TwoSideEffects | seed_medicines.py:60 | "a,b" gives [strip(a), strip(b)] |
| SeedMedicines.CompositionFirstOnly | seed_medicines.py:68 | with an empty second part the composition is the stripped first part |
| SeedMedicines.DiscontinuedExamples | seed_medicines.py:71 | a missing or null cell and "false" read as not discontinued; "True" as discontinued |
| SeedMedicines.Cleaned | seed_medicines.py:48-74 | one transformed record per row, in order |
| SeedMedicines.Named | seed_medicines.py:76-78 | keeps exactly the records with a non-empty name, in order |
| SeedMedicines.KeptIffNamed | seed_medicines.py:63-78 | a row is kept iff its stripped name is non-empty |
| SeedMedicines.NullNameKept | seed_medicines.py:38-78 | a null name becomes "None" and the row is kept |
| SeedMedicines.RecordsAppend | seed_medicines.py:48-82 | rows are cleaned independently: the records of two runs of rows are those of each in turn |
| SeedMedicines.CollectRecords | seed_medicines.py:48-82 | the row loop yields exactly the named cleaned records |
| SeedMedicines.BatchesPartition | seed_medicines.py:93-97 | the batches put back together are the list; each holds 1 to 1000 records, all but the last exactly 1000 |
| SeedMedicines.BatchCount | seed_medicines.py:97 | n > 0 records make (n - 1) / 1000 + 1 batches |
| SeedMedicines.Collection.constructor | seed_medicines.py:23 | a collection with the given documents and no insert calls |
| SeedMedicines.Collection.DeleteMany | seed_medicines.py:89 | the collection is emptied |
| SeedMedicines.Collection.InsertMany | seed_medicines.py:96 | the batch is appended and the call recorded |
| SeedMedicines.InsertBatches | seed_medicines.py:93-97 | the collection gains exactly the records, in order, inserted batch by batch |
| SeedMedicines.Seed | seed_medicines.py:84-97 | no named record leaves the collection untouched; otherwise it is cleared and then holds exactly the records, written in Batches |

## Left out

- Regular expressions from the query string (doctor filters, the medicine name match) are
  modelled as case-insensitive substring tests. The two agree on text without
  metacharacters.
- MongoDB's `$text` search is a predicate passed in (`textMatch`). Relevance, stemming and
  the text index are not modelled.
- Case mapping is ASCII only. Trimming removes the space and the controls tab through
  carriage return (`Text.IsSpace`). JavaScript's `trim` and Python's `strip` also remove
  Unicode spaces, and `strip` also removes the separators U+001C to U+001F. Lengths are not affected: they count UTF-16 code units,
  as JavaScript and Mongoose do (`Text.Utf16Length`). The email pattern's `\S` is the
  complement of JavaScript's full whitespace class (`Text.IsJsSpace`), Unicode spaces
  included.
- Request fields that are not strings (numbers, arrays) are modelled only where the source
  tests for them (the analyse body's `symptoms`). Null is told apart from a missing field
  only in the profile update, where the `required` validator refuses it. Elsewhere a field
  is absent, or text.
- Dates are integers. `new Date(...)` parsing and an invalid date are not modelled.
  `Appointments.BookResult` compares dates by equality.
- ObjectId casting is modelled only for the medicine detail route, whose own `catch`
  answers it. Elsewhere ids are natural numbers, and a malformed id is an unknown id. In the
  route handlers the source's cast error reaches the error handler, which answers 500. In
  `protect`, `User.findById` runs inside the guard's own `try`, so a token id that does not
  cast gets the guard's 401 "Not authorized, token invalid" (`InvalidTokenError`); the
  model, whose ids always cast, answers an unknown id with "User no longer exists"
  (`UserGoneError`).
- The appointment list and detail handlers `populate` the doctor with its name, specialty,
  image (and phone and email for one appointment). The model answers with the stored doctor
  id; `Doctors.FindDoctor` is the lookup that supplies those fields.
- Database failures and `asyncHandler`'s forwarding of them are not modelled, except where
  the source answers them itself.
- bcrypt's 72-byte truncation, salts and the cost factor are not modelled. The hash is a
  function, assumed injective in the password by `SoundHasher`.
- Token expiry and the clock are not modelled. `SoundSigner` assumes that verification
  inverts signing under the same secret.
- Concurrency is not modelled. Every operation runs alone, so the one-active-booking-per-slot
  invariant is not claimed for interleaved requests.
- Ties in the rating, date, creation-time and name sorts are not ordered. The lists are
  stated as a permutation plus the order, not as one exact sequence.
- Validation errors carry only the first failing message, not Mongoose's combined message.
- The medicines router is not mounted in the server. It imports an `auth` export that the
  middleware module does not have. It answers with a bare object, not the
  `{success, data}` wrapper the rest of the API uses. The model describes the handler as
  written and leaves those three points to this note.
- Medicines.Search: page and limit are integers. `Number()` of non-numeric text (NaN) and
  fractional values are not modelled. A limit of 0 means no limit and a null page count.
  A negative limit reads as its absolute value. A negative skip is refused by the database,
  which the handler answers with 500.
- The prompt's wording is a parameter (`template`). Only its `{symptoms}` placeholder
  matters to the rules.
- AnalyzeSymptoms: builds the prompt with the literal substitution `Gemini.ReplaceFirst`,
  the corrected behaviour of the finding below, not with `replace`'s `$` expansion. Its
  contract states that for symptom text without '$' the result is exactly the analysis of
  the prompt the code as written builds (`Gemini.ReplaceFirstAsWritten`). Text holding
  "$&", "$$", "$`" or "$'" gets the intended prompt rather than the expanded one.
- TestConnection: `Gemini.Model.generate` stands for `generateContent` and
  `response.text()` together, and `None` means that either one threw. The source's
  connection test reads no text, so a reply whose `text()` would throw still counts as
  connected there. The model counts it as a failed test.
- `JSON.parse` is a function passed in. Its output is not checked, so any field of the
  analysis may be missing. A reply that is not an object is not distinguished.
- The seeder's `except` branch cannot be taken in the model: every per-row step is total
  there, and `RecordsAppend` shows that rows do not affect one another. The CSV reading
  and the `float` parser are parameters.
- Cells are text. A numeric cell (for example a side-effects cell of 0, which Python
  treats as false) is not modelled.
- Timestamps (`createdAt`, `updatedAt`) and the text-index creation in the seeder, the
  seeder's progress messages and every `console` output are left out.

## Findings

| source | as written | input that shows it | evidently intended | confidence | as-written member | corrected member |
|---|---|---|---|---|---|---|
| server/src/services/geminiService.ts:65 | `String.prototype.replace` with a string replacement expands `$&`, `$$`, `` $` `` and `$'` in the patient's symptom text | symptoms "fever $&", which `/analyze` accepts (also "$'" or "$$" after text): the prompt reads "fever {symptoms}" | the symptom text inserted literally (a replacer function or a `$`-escaped string) | medium — follows from ECMA-262 GetSubstitution; not executed | Gemini.DollarAmpersandLosesSymptoms | Gemini.ReplaceFirst |
