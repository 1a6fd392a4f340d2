# eventi-comunale, modelled in Dafny

A model of the municipal events portal "eventi-comunale": municipal staff
(`comunale`) and administrators publish events, citizens (`cittadino`) browse,
filter, save and review them, and receive notifications. The model covers:

- the server actions on events (create, edit, delete, save toggle, review),
  on accounts (login, citizen sign-up, logout, password recovery and reset,
  staff creation, activation and deletion) and on event images (upload to and
  removal from the `event-images` bucket), each as the exact sequence of
  guards the action runs before it writes, with the backend's state before
  and after;
- the browser cookie adapter (`getAll` parsing `document.cookie`, `setAll`
  writing one assignment per cookie) with URI component encoding, and the
  encodeURI step the storage library applies to an image's public address;
- the event form, the client filter engine and its filter panel state, the
  month calendar grid, the notification list and settings, and the saved
  events grid, as classes whose fields are the components' state;
- the read-side pages (staff dashboard, admin event list, admin statistics,
  home, calendar, saved events, notifications) as functions of the backend's
  tables, with the aggregations they compute.

The backend (auth provider, the five tables `users`, `events`, `reviews`,
`saved_events`, `notifications`, and the image bucket) is the class
`Db.Database`; the column constraints the actions depend on (keys, NOT NULL
columns, the category enum, date columns) are enforced by the functions that
compute what a write leaves behind. A failure of the backend that the code
handles is an explicit boolean parameter; generated ids, the upload stamp and
the current time are parameters too.

Modules, one per source file or concern: `Optional`, `Types` (database.ts),
`Seqs` (filter, distinct, tally, sort, slice), `Text`, `Dates`, `Uri`,
`Cookies` (client.ts), `Db`, `EventActions` (events.ts), `AuthActions`
(auth.ts), `Upload` (upload.ts), `EventForm`, `Filters`, `CalendarView`,
`NotificationList`, `NotificationSettings`, `SavedEventsClient`, `Pages`,
`Statistics`.

## Model

| member | source | states |
|---|---|---|
| EventActions.CreaEvento | src/lib/actions/events.ts:14-84 | creaEvento's answer and the events table after it are those of the create definition |
| EventActions.CreateWritesOnlyOnSuccess | src/lib/actions/events.ts:53-79 | a failed create leaves the table as it was; a successful one appends exactly the created row |
| EventActions.CreateGuardOrder | src/lib/actions/events.ts:17-51 | 'Non autorizzato' exactly without a session, the staff-only message exactly for a signed-in non-staff caller, the missing-fields message exactly for staff with an empty required field; a created event implies all three passed and the store did not fail |
| EventActions.CreatedRow | src/lib/actions/events.ts:33-74 | the stored row has the new key, the caller as creator, zero views, the form's required texts and category, null for each empty optional field, and each flag true exactly when its field reads 'true' |
| EventActions.CreatePreservesValid | src/lib/actions/events.ts:53-74 | a create keeps event keys unique and every start date well-formed |
| EventActions.StoreInsertPreservesValid | src/lib/actions/events.ts:53-74 | the insert keeps event keys unique and every start date well-formed |
| EventActions.CopyFields | src/lib/actions/events.ts:117-130 | the loop over the twelve field names yields the copied-fields payload |
| EventActions.BuildEditPayload | src/lib/actions/events.ts:117-146 | the update payload is built as the edit-payload definition: the twelve fields, then costo and the two flags when carried |
| EventActions.EditPayloadNames | src/lib/actions/events.ts:117-146 | the payload names a column exactly when the form carries its field, never the creator, and a carried '' becomes null |
| EventActions.ReplaceEvent | src/lib/actions/events.ts:148-151 | the rows with the edited key are replaced and every other row kept, position by position |
| EventActions.ModificaEvento | src/lib/actions/events.ts:87-162 | modificaEvento's answer and the events table after it are those of the edit definition |
| EventActions.EditGuards | src/lib/actions/events.ts:89-115 | 'Evento non trovato' comes before the permission check; the permission message is given exactly when the event exists and the caller is neither admin nor creator; the table changes only on success, which needs that permission |
| EventActions.EditedTexts | src/lib/actions/events.ts:119-130 | an edit never touches key, creator or view count; titolo and luogo keep their value when not carried and take the non-empty carried text otherwise |
| EventActions.EditedNullables | src/lib/actions/events.ts:119-136 | data_fine, contatti and costo keep their value when not carried and otherwise take the carried text, '' clearing them |
| EventActions.EditedFlags | src/lib/actions/events.ts:138-146 | a carried is_gratuito or is_draft sets the flag exactly when it reads 'true'; an absent one keeps it |
| EventActions.EditLeavesCategoryToStore | src/lib/actions/events.ts:117-156 | the action does not check the category text; a permitted edit with an unknown category fails only at the store and writes nothing |
| EventActions.EditPreservesValid | src/lib/actions/events.ts:148-156 | an edit keeps event keys unique and every start date well-formed |
| EventActions.EliminaEvento | src/lib/actions/events.ts:165-208 | eliminaEvento's answer and the events table after it are those of the delete definition; an accepted delete also removes, by the foreign keys' cascade, exactly the event's reviews and saved rows, and a refused one leaves both tables |
| EventActions.ReviewsCascade | src/lib/actions/events.ts:195-198 | the reviews left by the cascade are, in order, exactly those of other events |
| EventActions.SavesCascade | src/lib/actions/events.ts:195-198 | the saved rows left by the cascade are, in order, exactly those of other events |
| EventActions.DeleteLeavesNoOrphans | src/lib/actions/events.ts:195-198 | if every review and saved row named an existing event before the delete, they all still do after it, and no event has the deleted key |
| EventActions.DeleteGuards | src/lib/actions/events.ts:167-193 | not-found comes before permission; the permission message exactly for a caller who is neither admin nor creator; a deletion needs that permission and otherwise the table is unchanged |
| EventActions.DeleteRemovesOne | src/lib/actions/events.ts:195-198 | with unique keys, the delete removes exactly the row with that key and keeps the others in order |
| EventActions.SalvaEvento | src/lib/actions/events.ts:211-256 | salvaEvento's answer and the saved_events table after it are those of the toggle definition, whose insert is refused when the key is taken or no event has the id (the foreign key on saved_events.event_id) |
| EventActions.ToggleFlipsPair | src/lib/actions/events.ts:220-255 | a successful call records the caller's (user, event) pair exactly when it was not recorded, removes it otherwise, and leaves every other pair; a save succeeds only for an existing event; a failure leaves the table |
| EventActions.TogglePreservesValid | src/lib/actions/events.ts:220-255 | a toggle keeps saved-row keys unique and at most one row per (user, event) pair |
| EventActions.ToggleTwice | src/lib/actions/events.ts:220-255 | two successful toggles of the same event by the same caller give back the recorded pairs |
| EventActions.ToggleKeepsNoOrphans | src/lib/actions/events.ts:242-251 | if every saved row named an existing event before a toggle, every saved row still does after it |
| EventActions.AggiungiRecensione | src/lib/actions/events.ts:259-318 | aggiungiRecensione's answer and the reviews table after it are those of the add-review definition |
| EventActions.AddReviewGuardOrder | src/lib/actions/events.ts:262-300 | login first, then 'Dati non validi' exactly for a missing event id or a rating outside 1..5, then a missing event, the start-date gate and an earlier review; no rejection writes |
| EventActions.AddReviewSuccess | src/lib/actions/events.ts:302-314 | a successful review appends one row by the caller for an existing, already started event, rated 1 to 5 as parsed, with the comment or null, and only when the caller had none |
| EventActions.ReviewGateIsStartDay | src/lib/actions/events.ts:286-288 | the gate refuses exactly while today (UTC) is before the start day, whatever the start time or end date |
| EventActions.AddReviewPreservesOnePerPair | src/lib/actions/events.ts:291-314 | where each user has at most one review per event, a review keeps it so |
| AuthActions.FindIdentity | src/lib/actions/auth.ts:23-26 | the identity found carries the address asked for; none is found exactly when no identity has that address |
| AuthActions.Authenticate | src/lib/actions/auth.ts:23-29 | a sign-in succeeds only for a confirmed identity whose address and password both match |
| AuthActions.ProviderCreate | src/lib/actions/auth.ts:83-96 | the provider issues an identity exactly when it does not fail and holds neither the address nor the key, with the submitted address and password; a held address is refused with the provider's own text |
| AuthActions.InsertProfile | src/lib/actions/auth.ts:100-111 | a profile insert succeeds only for a key not yet in the users table, and then adds exactly that row |
| AuthActions.Login | src/lib/actions/auth.ts:13-57 | login's answer and the session after it are those of the sign-in definition |
| AuthActions.SignInNeedsBothFields | src/lib/actions/auth.ts:19-30 | 'Email e password sono obbligatori' exactly when a field is empty, 'Credenziali non valide' exactly when the provider rejects the pair, and neither changes the session |
| AuthActions.SignInAfterAuthentication | src/lib/actions/auth.ts:33-56 | an inactive profile is signed out with 'Account disattivato'; a missing profile lands on '/'; otherwise admin lands on /admin, comunale on /dashboard, cittadino on '/' |
| AuthActions.CreateAccountOn | src/lib/actions/auth.ts:83-112 | the provider call and the profile insert write the identities and the users table as the account-creation definition says |
| AuthActions.RegistraCittadino | src/lib/actions/auth.ts:60-118 | registraCittadino's answer, identities and profiles are those of the sign-up definition |
| AuthActions.SignUpCheckOrder | src/lib/actions/auth.ts:70-80 | the three checks run in order (missing fields, mismatched confirmation, password under 6 characters), each reported exactly in its case, and a form that passes has a password of at least 6 characters |
| AuthActions.RegisterRefusedWritesNothing | src/lib/actions/auth.ts:70-80 | a form the checks refuse gets that check's message and writes neither identities nor profiles |
| AuthActions.RegisterSuccess | src/lib/actions/auth.ts:98-117 | a successful sign-up adds one unconfirmed identity and a cittadino profile for a new key and a free address; nothing else changes |
| AuthActions.RegisterProviderError | src/lib/actions/auth.ts:91-96 | a provider error writes nothing and shows 'Email già registrata' exactly when its message contains 'already registered', the generic text otherwise |
| AuthActions.RegisterTakenEmail | src/lib/actions/auth.ts:83-96 | signing up with an address already held writes nothing, and answers 'Email già registrata' exactly when the provider's refusal says 'already registered', the generic error otherwise |
| AuthActions.RegisterOrphan | src/lib/actions/auth.ts:98-111 | a failed profile insert answers the profile error and leaves the new identity without a profile |
| AuthActions.RegisteredCannotSignInYet | src/lib/actions/auth.ts:83-89 | a just-registered account is unconfirmed, so logging in with the same form is refused as invalid credentials |
| AuthActions.CreateAccountPreservesValid | src/lib/actions/auth.ts:83-112 | account creation keeps one identity per key and per address |
| AuthActions.Logout | src/lib/actions/auth.ts:121-126 | logout clears the session and redirects to /login |
| AuthActions.RequestReset | src/lib/actions/auth.ts:129-150 | recuperaPassword succeeds exactly when the address is given and the provider does not fail |
| AuthActions.RecuperaPassword | src/lib/actions/auth.ts:129-150 | the action answers as the reset-request definition and changes nothing in the store |
| AuthActions.SetPassword | src/lib/actions/auth.ts:167-169 | the signed-in identity's password is replaced and every other identity is kept, position by position |
| AuthActions.ResetPassword | src/lib/actions/auth.ts:153-176 | resetPassword's answer and identities are those of the password-change definition |
| AuthActions.ChangePasswordOrder | src/lib/actions/auth.ts:159-175 | a mismatch is reported exactly when the two fields differ, a short password exactly when they agree and are under 6 characters, and only a reset that redirects writes anything |
| AuthActions.ChangePasswordThenSignIn | src/lib/actions/auth.ts:167-175 | after a reset the user signs in with the new password and no longer with any other |
| AuthActions.AdminCheck | src/lib/actions/auth.ts:183-196 | the staff operations pass the check exactly when the caller is signed in with an admin profile |
| AuthActions.CreaUtenteComunale | src/lib/actions/auth.ts:179-239 | creaUtenteComunale's answer, identities and profiles are those of the staff-creation definition |
| AuthActions.ToggleUtenteComunale | src/lib/actions/auth.ts:242-272 | toggleUtenteComunale's answer and profiles are those of the activation definition |
| AuthActions.WithoutIdentity | src/lib/actions/auth.ts:295 | the deleted key is gone, the rest is a subsequence, and every other identity is kept |
| AuthActions.EliminaUtenteComunale | src/lib/actions/auth.ts:275-303 | eliminaUtenteComunale's answer, identities and profiles are those of the deletion definition |
| AuthActions.StaffOperationsNeedAdmin | src/lib/actions/auth.ts:183-196 | a caller who is not a signed-in admin changes nothing through creation, activation or deletion, and gets 'Non autorizzato' or the operation's admin-only message |
| AuthActions.CreateStaffThenSignIn | src/lib/actions/auth.ts:208-235 | a staff account made by an admin is confirmed, active and comunale, so it signs in at once and lands on /dashboard |
| AuthActions.SetActiveAnyTarget | src/lib/actions/auth.ts:261-264 | the activation flag of any existing profile is set, whatever its role, and no other field or row changes |
| AuthActions.AdminCanDeactivateSelf | src/lib/actions/auth.ts:261-264 | an admin may switch off their own profile, after which every sign-in as them ends signed out with 'Account disattivato' |
| AuthActions.DeleteAccountRemovesIdentity | src/lib/actions/auth.ts:295 | a deletion removes the identity with that key and keeps every other identity |
| AuthActions.DeleteAccountRemovesProfile | src/lib/actions/auth.ts:294-295 | the profile goes with the identity; every other profile stays as it was and no row is added |
| Upload.Extension | src/lib/actions/upload.ts:40 | the extension is never empty and holds no '.': the lower-cased text after the last '.' (the whole name when it has none), or 'jpg' when that text is empty |
| Upload.KeyOf | src/lib/actions/upload.ts:41 | the object key starts with the uploader's id and a slash and ends with '.' and the extension |
| Upload.UploadCheck | src/lib/actions/upload.ts:19-37 | an upload passes the checks only with a session and a file of an accepted type no larger than 5 MiB |
| Upload.UploadEventImage | src/lib/actions/upload.ts:15-70 | uploadEventImage's answer and the bucket after it are those of the upload definition, whose address is the one getPublicUrl writes through encodeURI |
| Upload.PublicUrl | src/lib/actions/upload.ts:62-64 | the public address is encodeURI of the project address, the public route, the bucket and the key: decoding it gives that plain address back |
| Upload.PublicUrlParts | src/lib/actions/upload.ts:62-64 | encodeURI leaves the route and the bucket marker alone, so the address is the encoded project address, the route, the marker and the encoded key |
| Upload.UploadCheckOrder | src/lib/actions/upload.ts:19-37 | session, file, type and size are checked in that order, each refusal given exactly in its case, and a file of exactly 5 MiB passes |
| Upload.UploadWrites | src/lib/actions/upload.ts:48-69 | a refused upload leaves the bucket; an accepted one adds exactly its new key, under the uploader's folder, and returns the public address getPublicUrl writes for it, encodeURI included |
| Upload.PathAfterMarker | src/lib/actions/upload.ts:82-87 | the path is missing exactly when the address does not contain 'event-images/' |
| Upload.SecondPiece | src/lib/actions/upload.ts:82-87 | the second piece of a split is missing exactly when the separator does not occur |
| Upload.DeleteEventImage | src/lib/actions/upload.ts:72-104 | deleteEventImage's answer and the bucket after it are those of the deletion definition |
| Upload.DeleteGuards | src/lib/actions/upload.ts:76-101 | only a key beginning with the caller's id is ever removed, and every refusal leaves the bucket alone |
| Upload.PathOfPublicUrl | src/lib/actions/upload.ts:62-87 | the path the deletion reads from a public address is the key as encodeURI wrote it, when the marker first occurs at the bucket name and the encoded key does not contain it |
| Upload.PrefixTestHasNoSlash | src/lib/actions/upload.ts:90 | the ownership test is a bare prefix test: a caller whose id is a prefix of another user's id may delete that user's images; account ids are UUIDs of one length, so this weakness is latent, not reachable |
| Upload.UploadThenDelete | src/lib/actions/upload.ts:15-104 | as written: the address an upload returns, given back to the deletion by the same user, is accepted and removes the key as encodeURI wrote it, so the uploaded image goes exactly when encodeURI leaves its key unchanged |
| Upload.ExtensionOf | src/lib/actions/upload.ts:40 | a name ending in '.' and a lower-case extension without '.' gets exactly that extension |
| Upload.EscapedExtensionImageStays | src/lib/actions/upload.ts:40-101 | a file whose extension holds a character encodeURI escapes gets a key encodeURI changes, so its image outlives the deletion that answers success |
| Upload.SpacedNameImageStays | src/lib/actions/upload.ts:40-101 | the file name "foto.jp g" gives such a key |
| Upload.DeleteImageDecoded | src/lib/actions/upload.ts:72-104 | the corrected deletion, which decodes the path first: every refusal leaves the bucket, and a removal takes one path beginning with the caller's id |
| Upload.UploadThenDeleteDecoded | src/lib/actions/upload.ts:15-104 | with the path decoded, the address an upload returns deletes exactly the uploaded image, whatever characters its key holds |
| EventForm.Hhmm | src/app/dashboard/EventForm.tsx:46-48 | the time shown is a prefix of the stored time, at most five characters, and empty only when the stored time is |
| EventForm.Change | src/app/dashboard/EventForm.tsx:62-70 | the input named after a column takes the typed value; every other input and the free/paid choice are unchanged |
| EventForm.ToFormLookup | src/app/dashboard/EventForm.tsx:76-81 | with distinct keys, every appended entry can be read back under its key |
| EventForm.EntryKeysDistinct | src/app/dashboard/EventForm.tsx:42-57 | the state object's fourteen keys are distinct, so no field is appended twice |
| EventForm.SubmittedCarries | src/app/dashboard/EventForm.tsx:76-82 | the submitted form data carries every input of the state under its column name, is_gratuito as 'true' or 'false', and is_draft |
| EventForm.BuildFormData | src/app/dashboard/EventForm.tsx:76-82 | the loop over the state's entries, then the draft flag, builds exactly the submitted form data |
| EventForm.SubmitRequiredFields | src/app/dashboard/EventForm.tsx:76-89 | creaEvento accepts the submitted form exactly when the seven required inputs are non-empty |
| EventForm.BlankFormIncomplete | src/app/dashboard/EventForm.tsx:42-57 | a new form submitted untouched is refused for missing fields |
| EventForm.SubmitCreatePayload | src/app/dashboard/EventForm.tsx:76-89 | the insert a submitted form produces holds every typed text, null for each blank optional input, the free/paid choice and the pressed button's draft flag |
| EventForm.SubmitEditPayload | src/app/dashboard/EventForm.tsx:76-87 | the update a submitted form produces writes every text column (a cleared one as null) and both flags, and never the creator |
| EventForm.UntouchedEditKeepsEvent | src/app/dashboard/EventForm.tsx:42-57 | opening a stored event for editing and saving it untouched writes back the same event, with its times cut to hours and minutes and the pressed button's draft flag |
| EventForm.UntouchedEditRow | src/app/dashboard/EventForm.tsx:42-57 | the update row of an untouched edit applied to the event gives that re-saved event |
| EventForm.ErrorText | src/app/dashboard/EventForm.tsx:96 | the banner text is never empty, and is the action's own error whenever it has one |
| EventForm.Editor.constructor | src/app/dashboard/EventForm.tsx:42-60 | the form opens on the initial state with no error and no navigation; a new form opens free with no price |
| EventForm.Editor.HandleChange | src/app/dashboard/EventForm.tsx:62-70 | the state becomes the changed state; the price can only be typed while paid, so a free form keeps no price |
| EventForm.Editor.ChooseFree | src/app/dashboard/EventForm.tsx:276 | picking "Gratuito" on a paid form makes the event free and clears the price |
| EventForm.Editor.ChoosePaid | src/app/dashboard/EventForm.tsx:286 | picking "A pagamento" on a free form makes the event paid and keeps the price typed before |
| EventForm.Editor.SetImage | src/app/dashboard/EventForm.tsx:346-350 | the upload's URL (or '' on clear) becomes the image field; nothing else changes |
| EventForm.Editor.HandleSubmit | src/app/dashboard/EventForm.tsx:72-100 | an edit goes to modificaEvento for that event and a new form to creaEvento, with the submitted form data; success navigates to /dashboard with no error, a refusal shows its error text and stays |
| EventForm.FreeSubmitsNoPrice | src/app/dashboard/EventForm.tsx:292-303 | with the price input shown only for paid events, a free event is created with a null price, and an edit writes a null price exactly when none was typed |
| Types.ParseCategory | src/types/database.ts:3-11 | a text the enum column accepts is the stored name of the category it yields |
| Types.CategoryNameRoundTrip | src/types/database.ts:3-11 | every category's stored name is accepted back as that category |
| Types.CategoryNameInjective | src/types/database.ts:3-11 | two categories have the same stored name exactly when they are the same category |
| Types.AllCategoriesExact | src/app/dashboard/EventForm.tsx:27-36 | the category list holds each of the eight categories exactly once |
| Types.AllRolesExact | src/types/database.ts:1 | the role list holds each of the three roles exactly once |
| Types.AllNotificationKindsExact | src/types/database.ts:177 | the notification-type list holds each of the three types exactly once |
| Db.ApplyUpdate | src/types/database.ts:102-123 | an accepted update keeps the row's key and view count, and leaves a well-formed start date or the old one when not written |
| Db.ApplyUpdateTexts | src/types/database.ts:102-123 | each NOT NULL text column of an accepted update keeps its value when left out and otherwise takes the named text |
| Db.ApplyUpdateNullables | src/types/database.ts:102-123 | each nullable column of an accepted update keeps its value when left out and otherwise takes the named text or null |
| Db.ApplyUpdateOthers | src/types/database.ts:102-123 | the category and the two flags of an accepted update keep their value when left out and otherwise take the named value |
| Db.InsertEvent | src/types/database.ts:80-101 | an accepted insert has the given key, a zero view count and a well-formed start date |
| Db.EventByIdFinds | src/lib/actions/events.ts:102-106 | in a table with unique keys, `.single()` by a row's key finds that row |
| Db.EventByIdMissing | src/lib/actions/events.ts:102-110 | `.single()` by a key no row has finds nothing |
| Cookies.ReadPiece | src/lib/supabase/client.ts:15-17 | a kept piece has a non-empty name without '=' and a non-empty value |
| Cookies.GetAll | src/lib/supabase/client.ts:11-21 | getAll's loop returns the cookies of document.cookie in order, or fails where decodeURIComponent throws, as the parsing definition says |
| Cookies.ReadPairOf | src/lib/supabase/client.ts:15-17 | the loop body trims, splits on '=', keeps a piece with a name and a value, and decodes the value |
| Cookies.SetAll | src/lib/supabase/client.ts:22-32 | one assignment to document.cookie per cookie, in order, each the cookie's assignment text |
| Cookies.BuildAssignment | src/lib/supabase/client.ts:24-29 | the assignment is the encoded pair followed by each present attribute: path, max-age, domain, secure, samesite |
| Cookies.AssignmentHead | src/lib/supabase/client.ts:24-30 | up to the first ';' every assignment is name=encoded value, which is what the browser stores |
| Cookies.ReadSerialized | src/lib/supabase/client.ts:11-21 | getAll reads back every cookie of a jar the browser serialises ("a=1; b=2"), values decoded, in order |
| Cookies.ZeroMaxAgeIsDropped | src/lib/supabase/client.ts:26 | a maxAge of 0 is falsy: the assignment is the one written without a maxAge |
| Cookies.ClearedCookieIsSkipped | src/lib/supabase/client.ts:16 | a cookie cleared to the empty value shows as "name=" and getAll skips it |
| Uri.Encode | src/lib/supabase/client.ts:24 | encodeURIComponent's output holds only unreserved characters and '%' |
| Uri.DecodeEncode | src/lib/supabase/client.ts:17 | decodeURIComponent undoes encodeURIComponent on every text and never throws on its output |
| Uri.DecodeNoPercent | src/lib/supabase/client.ts:17 | a text without '%' decodes to itself |
| Uri.EncodeUnreserved | src/lib/supabase/client.ts:24 | a text of unreserved characters encodes to itself |
| Uri.DecodeMalformed | src/lib/supabase/client.ts:17 | a lone '%', a bad hex digit or a truncated UTF-8 sequence makes decoding throw |
| Uri.EncodeUri | src/lib/actions/upload.ts:62-64 | encodeURI never shortens a text, and leaves its length unchanged only when every character is one it does not escape |
| Uri.EncodeUriAppend | src/lib/actions/upload.ts:62-64 | encodeURI distributes over concatenation |
| Uri.EncodeUriFixed | src/lib/actions/upload.ts:62-64 | encodeURI leaves a text unchanged exactly when every character of it is unreserved or a reserved URI character |
| Uri.DecodeEncodeUri | src/lib/actions/upload.ts:62-64 | decodeURIComponent undoes encodeURI on every text and never throws on its output |
| CalendarView.Bucket | src/app/calendario/CalendarView.tsx:44-50 | a date's list is never longer than the event list |
| CalendarView.BucketMembers | src/app/calendario/CalendarView.tsx:44-50 | an event is in a date's list exactly when it is in the list and starts on that date text |
| CalendarView.BucketIsSubsequence | src/app/calendario/CalendarView.tsx:44-50 | a date's list is the event list filtered to that date, so it keeps the order the events came in |
| CalendarView.EventsByDate | src/app/calendario/CalendarView.tsx:42-52 | the loop builds one key per start date that occurs, and each key's list is that date's events in list order |
| CalendarView.EachEventOneBucket | src/app/calendario/CalendarView.tsx:42-52 | every event is in the list of its own start date and in no other |
| CalendarView.CalendarDays | src/app/calendario/CalendarView.tsx:55-67 | the loop yields every day from the grid's first day to its last, one after the other |
| CalendarView.GridShape | src/app/calendario/CalendarView.tsx:56-59 | the grid opens on a Monday, closes on a Sunday, holds four to six whole weeks and covers every day of the month with less than a week on either side |
| CalendarView.WeeksAround | src/app/calendario/CalendarView.tsx:58-59 | the week-aligned span around a month of 28 to 31 days is whole weeks, 28 to 42 days long |
| CalendarView.SelectedDayEvents | src/app/calendario/CalendarView.tsx:71-75 | the selected day's list holds exactly the events whose start date parses to that day |
| CalendarView.SelectedDayEvent | src/app/calendario/CalendarView.tsx:71-75 | one event is in the selected day's list exactly when its start date parses to that day |
| CalendarView.DotsAccount | src/app/calendario/CalendarView.tsx:155-164 | the dots are the day's first events, at most three, and the '+n' label appears exactly beyond three and counts the rest |
| CalendarView.Calendar.constructor | src/app/calendario/CalendarView.tsx:38-39 | the calendar opens on today's month with no day selected |
| CalendarView.Calendar.PrevMonthClick | src/app/calendario/CalendarView.tsx:77 | the previous month is shown and the selection kept |
| CalendarView.Calendar.NextMonthClick | src/app/calendario/CalendarView.tsx:78 | the next month is shown and the selection kept |
| CalendarView.Calendar.GoToToday | src/app/calendario/CalendarView.tsx:79-82 | today's month is shown and today is selected |
| CalendarView.Calendar.SelectDay | src/app/calendario/CalendarView.tsx:136 | a click selects the cell's day and keeps the month |
| CalendarView.TodayInShownGrid | src/app/calendario/CalendarView.tsx:79-82 | after "Oggi" the selected day lies in the shown month's grid |
| Dates.WeekStart | src/app/calendario/CalendarView.tsx:58 | startOfWeek with weeks from Monday: a Monday, at most six days before the day |
| Dates.WeekStartOfWeek | src/app/calendario/CalendarView.tsx:58-59 | every day of a week has that week's Monday as its start |
| Dates.InMonthIff | src/app/calendario/CalendarView.tsx:129 | a day is in a month exactly when it lies between the month's first and last day |
| Dates.MonthSteps | src/app/calendario/CalendarView.tsx:77-78 | the next and previous month undo each other, and the next month starts the day after the month ends |
| Dates.FromDays | src/app/calendario/CalendarView.tsx:127 | every day number is the day number of a valid date (from year 0 on) |
| Dates.DaysInjective | src/app/calendario/CalendarView.tsx:130-131 | two valid dates with the same day number are the same date |
| Dates.DayOfBounds | src/lib/actions/events.ts:286-288 | an instant lies between the midnight of its day and the next midnight |
| Dates.FormatIsoDate | src/app/calendario/CalendarView.tsx:73 | format(day, 'yyyy-MM-dd') is ten characters with dashes at positions 4 and 7 |
| Dates.ParseCivil | src/app/calendario/CalendarView.tsx:16 | a text that parses names a valid date with a year of at most four digits |
| Dates.ParseFormat | src/app/calendario/CalendarView.tsx:73 | formatting a date and parsing it back gives the same date |
| Dates.FormatParse | src/app/calendario/CalendarView.tsx:45 | a date text that parses is the canonical text of its date |
| Dates.ParseIsoDateKey | src/app/calendario/CalendarView.tsx:73-74 | a text parses to a day exactly when it is that day's 'yyyy-MM-dd' key |
| Filters.FilteredEvents | src/components/events/EventFiltersWrapper.tsx:36-103 | the list shown is a subsequence of the events, and holds exactly the events every active filter accepts |
| Filters.DefaultShowsAll | src/components/events/EventFiltersWrapper.tsx:26-33 | the starting filters let every event through, in order |
| Filters.FilteringIdempotent | src/components/events/EventFiltersWrapper.tsx:36-103 | filtering the filtered list again changes nothing |
| Filters.MidnightInDays | src/components/events/EventFiltersWrapper.tsx:70-98 | a day's midnight lies between the midnight of one day and the end of another exactly when the day lies between them |
| Filters.MidnightToMidnight | src/components/events/EventFiltersWrapper.tsx:86-92 | the custom interval ends at the midnight of dateTo, which still admits the events of that day |
| Filters.TodayMeansSameDay | src/components/events/EventFiltersWrapper.tsx:77-78 | 'today' keeps exactly the events that start on the current day |
| Filters.WeekMeansSameWeek | src/components/events/EventFiltersWrapper.tsx:80-81 | 'week' keeps exactly the events that start in the Monday-to-Sunday week of today |
| Filters.MonthMeansSameMonth | src/components/events/EventFiltersWrapper.tsx:83-84 | 'month' keeps exactly the events that start in the calendar month of today |
| Filters.CustomNeedsBothBounds | src/components/events/EventFiltersWrapper.tsx:86-92 | 'custom' constrains nothing until both bounds are filled |
| Filters.CustomMeansBetween | src/components/events/EventFiltersWrapper.tsx:86-98 | with both bounds filled and valid, 'custom' keeps exactly the days between them, both included, whichever bound is the earlier |
| Filters.NarrowsMatches | src/components/events/EventFiltersWrapper.tsx:37-101 | an event the tighter filters accept is accepted by the looser ones |
| Filters.NarrowingShrinks | src/components/events/EventFiltersWrapper.tsx:36-103 | tightening the filters never adds an event: the new list is a subsequence of the old one |
| Filters.TypingNarrows | src/components/events/EventFilters.tsx:90 | typing one more character into the search box tightens the filters |
| Filters.ApplyChangesOneKey | src/components/events/EventFilters.tsx:60-61 | a change writes its own key to its value and leaves every other key as it was |
| Filters.NextIsFree | src/components/events/EventFilters.tsx:123 | the free/paid button always changes the setting |
| Filters.IsFreeCycle | src/components/events/EventFilters.tsx:123 | the button cycles all, free, paid: three presses come back to the start and fewer do not |
| Filters.InactiveShowsAll | src/components/events/EventFilters.tsx:79 | with no active filter and no search text every event is shown |
| Filters.SearchNotActive | src/components/events/EventFilters.tsx:79 | the search text alone never counts as an active filter |
| Filters.EventBrowser.constructor | src/components/events/EventFiltersWrapper.tsx:26-34 | the bar and the list start from the default filters, with the given saved ids |
| Filters.EventBrowser.UpdateFilter | src/components/events/EventFilters.tsx:60-64 | the changed filters go to the bar and to the list, which keep agreeing |
| Filters.EventBrowser.CycleIsFree | src/components/events/EventFilters.tsx:123 | the button moves the free/paid setting one step, in both states |
| Filters.EventBrowser.ClearFilters | src/components/events/EventFilters.tsx:66-77 | both states go back to the defaults, with no active filter |
| Filters.EventBrowser.ToggleAdvanced | src/components/events/EventFilters.tsx:137-138 | "Altri filtri" flips the advanced panel and nothing else |
| Filters.EventBrowser.HandleToggleSave | src/components/events/EventFiltersWrapper.tsx:105-115 | a save appends the id, an unsave removes every copy of it, and any other answer leaves the list |
| Filters.SaveMarks | src/components/events/EventFiltersWrapper.tsx:105-115 | after a save the card is marked, after an unsave it is not, and other cards keep their marks |
| Filters.ResultsHeader | src/components/events/EventFiltersWrapper.tsx:142 | the header reads "1 evento trovato" exactly for one result |
| Text.Lower | src/components/events/EventFiltersWrapper.tsx:40-45 | lower-casing keeps the length and maps each character |
| Text.ContainsTransitive | src/components/events/EventFiltersWrapper.tsx:40-45 | a text holding a longer query also holds any part of it |
| Text.TrimStart | src/lib/supabase/client.ts:15 | the result is a suffix of the text and starts with no space |
| Text.TrimEnd | src/lib/supabase/client.ts:15 | the result is a prefix of the text and ends with no space |
| Text.Split | src/lib/supabase/client.ts:12 | split gives at least one piece and no piece holds the separator |
| Text.SplitJoin | src/lib/supabase/client.ts:12 | joining the pieces of a split with the separator gives the text back |
| Text.JoinSplit | src/lib/supabase/client.ts:12 | splitting a join of separator-free pieces gives the pieces back |
| Text.LastPiece | src/lib/actions/upload.ts:40 | `split(sep).pop()` is a separator-free suffix, preceded by the separator unless it is the whole text |
| Text.IndexOf | src/lib/actions/upload.ts:82 | the position found holds the substring, and none is found exactly when the text does not contain it |
| Text.NatText | src/lib/supabase/client.ts:26 | a number is written as one or more decimal digits |
| Text.ParseInt | src/lib/actions/events.ts:268 | parseInt gives a number only when the text holds a digit |
| Text.ParseIntNatText | src/lib/actions/events.ts:268 | parseInt reads back what String(n) writes |
| Text.ParseIntNoDigits | src/lib/actions/events.ts:268 | a text with no digit at all parses to NaN |
| Pages.RatingsFor | src/app/dashboard/page.tsx:63-66 | an event's ratings are no more than the reviews table's rows |
| Pages.Average | src/app/dashboard/page.tsx:73-75 | the average is null exactly when the event has no ratings |
| Pages.RatingsForWithin | src/app/dashboard/page.tsx:63-66 | every rating of an event lies in any range that holds all the table's ratings |
| Pages.AverageWithin | src/app/dashboard/page.tsx:73-75 | the average lies between any lower and upper bound of the ratings |
| Pages.RatingsForCount | src/app/dashboard/page.tsx:80 | an event's review count is the number of its rows in the reviews table |
| Pages.CreatorOf | src/app/admin/eventi/page.tsx:53-56 | the creator is joined exactly when the creator's profile exists, and carries that profile's name |
| Pages.WithStats | src/app/dashboard/page.tsx:77-82 | the pushed row is the event with its save count, its review count and their average (null exactly when there are none), and the creator where the page joins it |
| Pages.StatsOf | src/app/dashboard/page.tsx:59-84 | one statistics row per event, in the same order |
| Pages.AttachStats | src/app/dashboard/page.tsx:59-84 | the loop every listing page runs yields the statistics of the events, one row each, in order |
| Pages.Gate | src/app/dashboard/page.tsx:35-50 | no redirect exactly for a signed-in caller the page admits; '/login' without a session and '/' for a missing profile or the wrong role |
| Pages.GatesNested | src/app/admin/eventi/page.tsx:33-48 | whoever passes the administrators' gate passes the staff gate, and whoever passes that passes the sign-in gate |
| Pages.NewestFirst | src/app/dashboard/page.tsx:57 | `created_at` descending over rows stored in creation order is the table reversed |
| Pages.NewestFirstSameElements | src/app/dashboard/page.tsx:57 | ordering newest first keeps the same rows |
| Pages.ByStartDate | src/app/calendario/page.tsx:15 | ordering by start date is a permutation of the rows |
| Pages.ByStartDateSorted | src/app/calendario/page.tsx:15 | ordering by start date gives non-decreasing start days |
| Pages.StatusBadge | src/app/dashboard/page.tsx:214-248 | 'Bozza' exactly for a draft, 'Pubblicato' exactly for a published event whose start midnight is not yet past, 'Concluso' otherwise |
| Pages.OwnEvents | src/app/dashboard/page.tsx:53-57 | the dashboard lists exactly the caller's events |
| Pages.DashboardPage | src/app/dashboard/page.tsx:32-90 | the gate's redirect, or the caller's events newest first with their statistics, and the four totals summed over them |
| Pages.TotalSavesCountsEachSave | src/app/dashboard/page.tsx:89 | with distinct events, the saves total counts every save of a listed event once |
| Pages.DashboardTotalSaves | src/app/dashboard/page.tsx:53-89 | on the dashboard the saves total is the number of saves of the caller's events |
| Pages.AdminEventsPage | src/app/admin/eventi/page.tsx:30-84 | the gate's redirect, or every event, drafts included, newest first, with statistics and creators |
| Pages.CalendarEvents | src/app/calendario/page.tsx:11-15 | the calendar lists a permutation of the published events |
| Pages.CalendarPage | src/app/calendario/page.tsx:7-43 | the calendar page has no gate and gives the published events with their statistics |
| Pages.CalendarEventsSpec | src/app/calendario/page.tsx:11-15 | the calendar lists exactly the published events, past ones included, by non-decreasing start day |
| Pages.HomeEvents | src/app/page.tsx:12-20 | the home page lists a permutation of the upcoming published events |
| Pages.HomeEventsSpec | src/app/page.tsx:12-20 | the home page lists exactly the published events starting today (UTC) or later, by non-decreasing start day |
| Pages.LaterEventPublished | src/app/dashboard/page.tsx:214-248 | a published event starting after today shows as 'Pubblicato' |
| Pages.TodayListedYetConcluded | src/app/page.tsx:19 | an event starting today is still on the home page while the dashboard already marks it 'Concluso' |
| Pages.Categories | src/app/page.tsx:54 | the category column of the listed events, one per event |
| Pages.Locations | src/app/page.tsx:55 | the place column of the listed events, one per event |
| Pages.Associations | src/app/page.tsx:56 | the association column of the listed events, one per event |
| Pages.SavedIdsOf | src/app/page.tsx:59-69 | no saved ids without a session |
| Pages.SavedIdsOfSpec | src/app/page.tsx:62-69 | a signed-in user's saved ids are exactly the events they have a saved_events row for |
| Pages.HomePage | src/app/page.tsx:8-74 | the upcoming published events with statistics and creators, the distinct filter options, the caller's saved ids and the three hero counts |
| Pages.CategoryOptions | src/app/page.tsx:54 | the category options hold every listed event's category once, and nothing else |
| Pages.LocationOptions | src/app/page.tsx:55 | the place options hold every listed event's place once, and nothing else |
| Pages.AssociationOptions | src/app/page.tsx:56 | the association options hold every listed event's association once, and nothing else |
| Pages.JoinSaved | src/app/preferiti/page.tsx:35-38 | the joined events are no more than the saved rows |
| Pages.SavedPage | src/app/preferiti/page.tsx:10-66 | '/login' without a session; otherwise the caller's saved events, newest save first, with statistics and creators, and their ids |
| Pages.SavedStats | src/app/preferiti/page.tsx:35-64 | the loop skips a row whose event the join does not return and yields the statistics of the others, in order |
| Pages.JoinSavedIds | src/app/preferiti/page.tsx:35-38 | the listed events are exactly those named by a saved row that still exist in the events table |
| Pages.LatestNotifications | src/app/notifiche/page.tsx:18-23 | at most fifty notifications, all the caller's |
| Pages.UnreadCount | src/app/notifiche/page.tsx:25 | the unread count is at most the list's length and zero exactly when every shown notification is read |
| Pages.NotificationsPage | src/app/notifiche/page.tsx:8-41 | '/login' without a session; otherwise the caller's latest fifty notifications newest first, their unread count and the header it gives |
| Pages.UnreadHeaderSpec | src/app/notifiche/page.tsx:39-41 | the header says 'Tutte le notifiche lette' exactly when no shown notification is unread |
| Statistics.RoleCountsPartition | src/app/admin/statistiche/page.tsx:61-73 | the administrators', staff and citizens' counts add up to the number of profiles |
| Statistics.RoleBarAsWritten | src/app/admin/statistiche/page.tsx:277-281 | the role bar as the page draws it has three segments, the first from the fixed count two |
| Statistics.RoleBarAsWrittenOverflows | src/app/admin/statistiche/page.tsx:264-278 | with a single administrator and no one else the three segments add up to 200 per cent of the track |
| Statistics.RoleBar | src/app/admin/statistiche/page.tsx:277-281 | the role bar has three segments, one per role counted from the table |
| Statistics.RoleBarFills | src/app/admin/statistiche/page.tsx:277-281 | with at least one profile the three segments counted from the table add up to exactly 100 per cent |
| Statistics.PercentWhole | src/app/admin/statistiche/page.tsx:278-280 | a segment covering all users is 100 per cent wide |
| Statistics.PercentAdd | src/app/admin/statistiche/page.tsx:278-280 | segment widths over the same total add like their counts |
| Statistics.AverageViews | src/app/admin/statistiche/page.tsx:220 | the average views per event is 0 when there are no events or no views, otherwise the quotient rounded to the nearest integer with halves up |
| Statistics.AverageViewsNearest | src/app/admin/statistiche/page.tsx:220 | the shown average differs from the exact quotient by at most one half |
| Statistics.TallyCategories | src/app/admin/statistiche/page.tsx:96-100 | the loop over the published events builds the category tally: keys in first-occurrence order, each with its count |
| Statistics.CategoriesAppend | src/app/admin/statistiche/page.tsx:98-100 | the categories of two event lists concatenated are the two lists' categories concatenated |
| Statistics.Shares | src/app/admin/statistiche/page.tsx:102-107 | each tally entry becomes one distribution row with its category, its count and the count over the number of events times 100 |
| Statistics.Distribution | src/app/admin/statistiche/page.tsx:102-108 | the sorted distribution is a permutation of the unsorted rows |
| Statistics.SharesSum | src/app/admin/statistiche/page.tsx:102-107 | the rows' percentages add up to the total count over the number of events times 100 |
| Statistics.DistributionSum | src/app/admin/statistiche/page.tsx:102-108 | when the counts add up to the number of events the percentages add up to 100 |
| Statistics.WholeShare | src/app/admin/statistiche/page.tsx:106 | a count equal to the number of events is 100 per cent |
| Statistics.PercentagesSumToHundred | src/app/admin/statistiche/page.tsx:89-108 | whenever some event is published the category percentages add up to exactly 100 |
| Statistics.DistributionSorted | src/app/admin/statistiche/page.tsx:108 | the distribution is ordered by decreasing count |
| Statistics.DistributionCounts | src/app/admin/statistiche/page.tsx:97-106 | every row's count is the number of published events of its category |
| Statistics.DistributionHasKey | src/app/admin/statistiche/page.tsx:102-107 | every tally key has a row in the distribution |
| Statistics.DistributionKeyOf | src/app/admin/statistiche/page.tsx:102-107 | every row's category is a tally key |
| Statistics.DistributionKeys | src/app/admin/statistiche/page.tsx:102-108 | a category has a row exactly when it is a tally key |
| Statistics.DistributionCategories | src/app/admin/statistiche/page.tsx:89-108 | a category has a row exactly when some published event has it |
| Statistics.PopularEventsOrdered | src/app/admin/statistiche/page.tsx:111-121 | the most viewed list holds at most five published events of the table, in decreasing views |
| Statistics.PopularEventsComplete | src/app/admin/statistiche/page.tsx:111-121 | a published event left out of the most viewed list has no more views than any listed event, and then five are listed |
| Statistics.TallySaves | src/app/admin/statistiche/page.tsx:128-131 | the loop over the saved rows builds the per-event save tally |
| Statistics.TopSavedIds | src/app/admin/statistiche/page.tsx:133-136 | at most five ids are kept |
| Statistics.Ranks | src/app/admin/statistiche/page.tsx:145-148 | each fetched event becomes one row with its id, title, category and tally count |
| Statistics.SavesForCount | src/app/admin/statistiche/page.tsx:128-131 | an event's saved_events rows number exactly its tally count |
| Statistics.TopSavedCounts | src/app/admin/statistiche/page.tsx:138-149 | every most-saved row carries its event's true number of saves |
| Statistics.TopSavedIdsRanked | src/app/admin/statistiche/page.tsx:133-136 | a saved event left out of the top ids was saved no more often than any kept one, and then five were kept |
| Statistics.StatisticsPage | src/app/admin/statistiche/page.tsx:40-281 | non-admins are redirected as the gate says; an admin gets the user, staff and citizen counts, the event, review and save counts, the views total and average, the distribution, the most viewed and most saved lists, and, as drawn, the administrators' figure 2 and the role bar built from it |
| NotificationList.MarkRead | src/app/notifiche/NotificationList.tsx:31-33 | the list keeps its length; an entry with the id becomes read and every other entry is unchanged |
| NotificationList.MarkReadAmong | src/app/notifiche/NotificationList.tsx:40-43 | the store rows keep their number; a row whose id is listed becomes read, the others are unchanged |
| NotificationList.MarkAll | src/app/notifiche/NotificationList.tsx:45-47 | every entry becomes read and nothing else changes |
| NotificationList.UnreadIds | src/app/notifiche/NotificationList.tsx:38 | the ids collected are exactly those of the unread entries |
| NotificationList.Without | src/app/notifiche/NotificationList.tsx:50-57 | deleting keeps the other entries in order and drops exactly the entries with the id |
| NotificationList.MarkReadSpec | src/app/notifiche/NotificationList.tsx:24-34 | marking one read twice is marking it once; an entry is read afterwards exactly when it was read or has the id; only the read flag changes |
| NotificationList.MarkAllSpec | src/app/notifiche/NotificationList.tsx:45-60 | after marking all, nothing is unread and only read flags changed |
| NotificationList.MarkAllInStore | src/app/notifiche/NotificationList.tsx:36-43 | store rows shown in the list are all read after the store update |
| NotificationList.WithoutSpec | src/app/notifiche/NotificationList.tsx:50-60 | deleting never lengthens the list and never creates an unread entry |
| NotificationList.Inbox.constructor | src/app/notifiche/NotificationList.tsx:22 | the list starts as the notifications the page passed in |
| NotificationList.Inbox.MarkAsRead | src/app/notifiche/NotificationList.tsx:24-34 | the store row is marked read unless the store fails; the list entry is marked read either way |
| NotificationList.Inbox.MarkAllAsRead | src/app/notifiche/NotificationList.tsx:36-48 | the store marks the listed unread ids unless it fails; the list then has nothing unread |
| NotificationList.Inbox.DeleteNotification | src/app/notifiche/NotificationList.tsx:50-58 | the store row is deleted unless the store fails; the entry leaves the list either way |
| NotificationSettings.Toggle | src/app/profilo/NotificationSettings.tsx:35-41 | toggling puts the category in the list exactly when it was absent and leaves every other category's membership alone |
| NotificationSettings.ToggleKeepsOthers | src/app/profilo/NotificationSettings.tsx:35-41 | toggling keeps the list free of duplicates and the other categories in their order |
| NotificationSettings.ToggleTwiceSameCategories | src/app/profilo/NotificationSettings.tsx:35-41 | toggling a category twice gives back the same set of categories |
| NotificationSettings.ToggleTwiceAbsent | src/app/profilo/NotificationSettings.tsx:35-41 | toggling an absent category twice gives back the very same list |
| NotificationSettings.ToggleTwiceLast | src/app/profilo/NotificationSettings.tsx:35-41 | toggling the last category twice gives back the very same list |
| NotificationSettings.ToggleTwiceReorders | src/app/profilo/NotificationSettings.tsx:35-41 | toggling a category that is not last twice moves it to the end |
| NotificationSettings.SavedProfile | src/app/profilo/NotificationSettings.tsx:49-56 | the save writes the two notification flags and the preferred categories and no other column |
| NotificationSettings.SettingsForm.constructor | src/app/profilo/NotificationSettings.tsx:27-33 | the form starts from the profile's flags, its categories or the empty list, and no message |
| NotificationSettings.SettingsForm.ToggleCategory | src/app/profilo/NotificationSettings.tsx:35-41 | the categories are toggled and nothing else changes |
| NotificationSettings.SettingsForm.SetEmailNotifications | src/app/profilo/NotificationSettings.tsx:27 | only the e-mail switch changes |
| NotificationSettings.SettingsForm.SetAppNotifications | src/app/profilo/NotificationSettings.tsx:28 | only the in-app switch changes |
| NotificationSettings.SettingsForm.HandleSave | src/app/profilo/NotificationSettings.tsx:43-65 | a store error leaves the table and shows the error text; otherwise the user's row gets the form's values (a missing row is left alone) and the success text is shown |
| SavedEventsClient.DropKeepsIds | src/app/preferiti/SavedEventsClient.tsx:23-24 | dropping an event from the grid drops exactly its id from the grid's ids |
| SavedEventsClient.DropSpec | src/app/preferiti/SavedEventsClient.tsx:23-24 | the unsaved id is gone from both lists and the others stay in order |
| SavedEventsClient.SavedGrid.constructor | src/app/preferiti/SavedEventsClient.tsx:13-15 | the grid starts with the page's events and ids |
| SavedEventsClient.SavedGrid.HandleToggleSave | src/app/preferiti/SavedEventsClient.tsx:17-27 | an answer "not saved any more" removes the event from both lists; any other answer changes nothing; the grid keeps showing exactly the saved ids |
| Seqs.Filter | src/components/events/EventFiltersWrapper.tsx:37 | the kept elements satisfy the predicate and come from the input, and every satisfying element is kept |
| Seqs.FilterMonotone | src/components/events/EventFiltersWrapper.tsx:37-96 | a stronger predicate keeps a subsequence of what a weaker one keeps |
| Seqs.Map | src/app/admin/statistiche/page.tsx:102-107 | one output per input, in order |
| Seqs.DistinctSpec | src/app/page.tsx:54-56 | the distinct values are exactly the values present, each once, in order of first occurrence |
| Seqs.DistinctColumn | src/app/page.tsx:54-56 | every row's column value appears among the distinct values, and each distinct value comes from some row |
| Seqs.TallySpec | src/app/admin/statistiche/page.tsx:97-102 | the keys of the counts dictionary are the distinct keys in insertion order and the counts add up to the number of rows |
| Seqs.CountOfTally | src/app/admin/statistiche/page.tsx:97-100 | the dictionary records for every key exactly its number of occurrences |
| Seqs.SortDesc | src/app/admin/statistiche/page.tsx:108 | sorting by decreasing key returns a permutation of its input |
| Seqs.SortDescSorted | src/app/admin/statistiche/page.tsx:108 | the sort's output is ordered by decreasing key |
| Seqs.SortDescStable | src/app/admin/statistiche/page.tsx:108 | the sort is stable, as the language's array sort is: the elements of any one key come out in the order they went in |
| Seqs.SortDescMembers | src/app/admin/statistiche/page.tsx:134 | sorting keeps exactly the same elements |
| Seqs.SortDescRealSum | src/app/admin/statistiche/page.tsx:106-108 | sorting leaves the sum of the percentages unchanged |
| Seqs.TopSpec | src/app/admin/statistiche/page.tsx:133-136 | the first five of the sort come from the input, in decreasing order, and whatever is left out ranks no higher than any of them |
| Seqs.Take | src/app/admin/statistiche/page.tsx:135 | the slice keeps the first n elements, or all of them when there are fewer |
| Seqs.SumBounds | src/app/dashboard/page.tsx:73-75 | a sum lies between the number of terms times any lower and any upper bound of them |

## Left out

- Row-level security policies of the hosted database: access is modelled only through the checks the code performs itself.
- Concurrency: the check-then-insert sequences of `salvaEvento` and `aggiungiRecensione` are modelled as sequential; races between requests are not.
- `incrementaViews` and the `increment_event_views` database function (src/lib/actions/events.ts:321-324): its body is not part of this model and its point is an atomic increment under concurrent page loads.
- Filters.RangeInterval: a custom range follows date-fns 3 and later, whose `isWithinInterval` puts the two bounds in order; date-fns 2, which throws on a reversed range, is not modelled.
- Time zones: local time is taken to be UTC in every date computation (`date-fns` intervals, `parseISO`, `format`, `new Date()`).
- Floating point: means and percentages are exact `real` values; `toFixed` is modelled as rounding to the nearest integer with halves up; `costo` stays text.
- Dates are civil dates from year 0 on; `format(…, 'yyyy-MM-dd')` is modelled for years of at most four digits, and the previous month of January of year 0 stays there.
- Loading and submitting flags, `router.refresh`, `router.push`, `alert`, styling, icons, label and colour tables and all JSX beyond the values it displays.
- `revalidatePath` and `console.error`; `redirect` is modelled as a returned value.
- Query ordering by `created_at` is modelled as reverse table order; ties of `order(...)` keep table order, which the database does not promise.
- `Object.entries` ordering of the statistics dictionaries is insertion order, which matches JavaScript only for keys that are not integer-like (true of categories and UUIDs).
- The checkbox branch of the event form's `handleChange`: the form has no checkbox input bound to it.
- Duplicate keys in `FormData`: each form field is read as its single value; an absent field reads as the empty text, as the code only tests truthiness.
- EventForm.Editor: the price-free invariant for free events is established for a new event and preserved by every step, but not established when editing a stored free event that still carries a price.
- AuthActions.ProviderCreate: the provider's refusal of an address it already holds is a text passed in by the caller, not a fixed wording; a provider that answers a held address with no error (as `signUp` can when e-mail confirmation is on) is not modelled.
- Provider error texts are abstract strings; only the 'already registered' test on them is modelled.
- The server-side Supabase client (src/lib/supabase/server.ts) is not part of this model.
- The time columns (`ora_inizio`, `ora_fine`) are not validated by the store in this model.
- Password length is counted in characters of the model's strings, where JavaScript counts UTF-16 code units.
- `toLowerCase` and `trim` fold and strip ASCII characters only.
- `Date.now()` and `Math.random()` in the upload key are a single stamp parameter.
- Cookies.BuildAssignment: the `sameSite` option is text only; its boolean form, which would be written `samesite=true`, is not modelled.
- What deleting an event does to notifications that name it (`notifications.event_id`) is not modelled; they are left as they are.
- A failed read query is not modelled: every page's read succeeds. The pages show a failed read as an empty list or a zero count (`if (events)`, `events?.map(...) || []`, `reviews?.length || 0`).
- Upload.PublicUrl: only the encodeURI step of getPublicUrl is modelled; its download and image-transformation options are not used by the program and not modelled.

## Findings

| source | as written | input that shows it | evidently intended | confidence | as-written member | corrected member |
|---|---|---|---|---|---|---|
| src/app/admin/statistiche/page.tsx:264, 278 | the administrators' count and the first segment of the role bar use the constant 2 | a single administrator and no other profile: the three segments are 200%, 0% and 0% wide | count administrators from the users table, so the segments add up to 100% | not executed; low to medium (the constant may be a deliberate placeholder) | Statistics.RoleBarAsWrittenOverflows | Statistics.RoleBarFills |
| src/lib/actions/upload.ts:82-95 | the deletion hands the store the path cut from the public address without decoding it, while getPublicUrl wrote that address through encodeURI | an image uploaded from a file named "foto.jp g": its key ends in ".jp g", the address holds "jp%20g", and deleting by that address answers success while the image stays in the bucket | decode the path before the ownership test and the removal, so the round trip removes the uploaded image for every key | not executed; medium (browsers allow such file names, and the store ignores a missing name) | Upload.SpacedNameImageStays | Upload.UploadThenDeleteDecoded |
