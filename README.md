# TechnoWear client logic, modelled in Dafny

TechnoWear is a single-page web application for smart clothing. A person signs
in, pairs garments, and watches health metrics, fitness goals and a monthly
CO2 figure on a dashboard. The pages and widgets are React components over a
hosted backend that provides an auth server, a row store and realtime change
notifications. What they decide on their own is small but real: a pairing
wizard, input validators, get-or-create queries, session redirects, and a
random walk over the metric figures.

This project models that logic and proves the properties the components
promise:

- Each component is a class. Its fields are the component's state variables.
  Its methods are the component's handlers.
- The backend is `Store.Backend`, one `seq` per table. Every call gets an
  outcome flag (`ok`) as a parameter. The auth server is `Store.AuthClient`,
  which records the requests sent to it.
- Waits become split handlers. A handler that awaits the backend and whose
  intermediate state is visible is split in two: one method sends the
  request, the other handles the answer (`AuthView.Submit` / `Answered`,
  `OtpGate.HandleVerify` / `VerifyAnswered`).
- Timers, realtime events and session notifications are methods the
  environment may call in any order.
- The clock, `Math.random()` and the browser's form validation are
  parameters.

Each pure rule is a function. What it promises is stated in the function's own
`ensures` where the result can be named, and otherwise in lemmas that relate it
to an independent characterisation. Among these:

- the trimmed-length validator;
- the month key and the calendar month it stands for;
- the redirect rules over any sequence of session observations;
- the clamped random walk over any number of ticks;
- the query builder's filter-and-sort.

Files:

- `common.dfy`: options, routes, toasts, sessions, and the decimal rendering of numbers with its read-back.
- `store.dfy`: the query builder (`Query`), the row types, the backend tables and the auth client (`Store`).
- `garment_pairing.dfy`: the add-garment wizard.
- `fitness_goals.dfy`: the goal validator, seeding, completion toggle and progress bar.
- `otp_verification.dfy`: the one-time-code gate.
- `garment_list.dfy`: the garment list and its delete confirmation.
- `auth_page.dfy`: the sign-in / sign-up form.
- `dashboard.dfy`: the dashboard page's session gate and sign-out.
- `index_page.dfy`: the landing page's redirect.
- `eco_impact.dfy`: the monthly CO2 card.
- `health_metrics.dfy`: the metric grid and its random walk.

Three behaviours of the source are worth stating plainly, because the
model follows them exactly:

- Sign-up calls `signUp` with a password; no one-time code is involved in
  the auth page's own flow.
- The mode toggle on the auth page leaves the typed fields as they are.
- The default goals are inserted only when the goal query returns no data
  object, that is, when the query fails. A new user's empty list is a data
  object, so no defaults are inserted for them. The model states exactly
  this (`FitnessGoals.FitnessGoalsWidget.FetchGoals`) and does not "fix" it.

## Model

| member | source | states |
|---|---|---|
| Common.Path | src/pages/Dashboard.tsx:22 | every route's path starts with "/", and only the landing route's path is "/" |
| Common.Decimal | src/components/dashboard/AddGarmentDialog.tsx:49-50 | the rendering of `Date.now()` in the marker is a non-empty string of decimal digits with no leading zero |
| Common.DecimalRoundTrip | src/components/dashboard/AddGarmentDialog.tsx:49-50 | reading the digits of a rendered number back yields the number |
| Common.PadDecimal | src/components/dashboard/EcoImpact.tsx:22 | zero-padding gives at least the requested width, all digits |
| Common.PadDecimalRoundTrip | src/components/dashboard/EcoImpact.tsx:22 | padding is undone by reading back, so distinct numbers pad to distinct strings |
| Common.Utf16Length | src/components/dashboard/FitnessGoals.tsx:19 | a string's `.length` counts UTF-16 code units: at least one and at most two per character |
| Common.Utf16LengthBmp | src/components/auth/OTPVerification.tsx:19 | `.length` equals the character count iff no character lies outside the Basic Multilingual Plane |
| Common.Utf16Prefix | src/components/auth/OTPVerification.tsx:62-65 | the longest prefix within a code-unit budget: a prefix, within the budget, the whole string when it fits, and the next character would overflow |
| Common.LeadingZerosValue | src/components/dashboard/EcoImpact.tsx:22 | leading zeros keep a digit string's value |
| Common.DecimalLength | src/components/dashboard/EcoImpact.tsx:22 | a number below 10^k renders in at most k digits |
| Query.Filter | src/components/dashboard/GarmentList.tsx:62-65 | `.eq` keeps exactly the rows the predicate holds of, nothing else |
| Query.FilterAppend | src/components/dashboard/GarmentList.tsx:62-65 | filtering distributes over appending rows |
| Query.FilterMultiset | src/components/dashboard/GarmentList.tsx:62-65 | the filtered rows are a sub-multiset, with every selected row's multiplicity kept |
| Query.SortDesc | src/components/dashboard/GarmentList.tsx:66 | `.order(..., { ascending: false })` permutes the rows (same multiset) |
| Query.SortDescSorted | src/components/dashboard/GarmentList.tsx:66 | the ordered rows have non-increasing keys |
| Query.SortDescHeadIsMax | src/components/dashboard/HealthMetricsGrid.tsx:35-37 | the first ordered row has the largest key, so `.limit(1)` picks the latest |
| Store.GarmentsOfSpec | src/components/dashboard/GarmentList.tsx:61-73 | the garment query returns exactly the user's rows, each as often as stored, newest first |
| Store.GoalsOfSpec | src/components/dashboard/FitnessGoals.tsx:33-41 | the goal query returns exactly the user's rows, each as often as stored, newest first |
| Store.EcoLookup | src/components/dashboard/EcoImpact.tsx:24-29 | `.single()` finds a row exactly when one row matches both user and month, and that row matches both |
| Store.LatestMetricSpec | src/components/dashboard/HealthMetricsGrid.tsx:30-37 | a sample is found iff the user has one, and it is the user's latest |
| Store.DeleteById | src/components/dashboard/GarmentList.tsx:78-81 | a row survives the delete iff its id differs |
| Store.SetCompletedSpec | src/components/dashboard/FitnessGoals.tsx:113-117 | the update sets the flag on exactly the rows with the id, changing nothing else |
| Store.Backend.InsertGarment | src/components/dashboard/AddGarmentDialog.tsx:44-51 | keeping `Valid` (every stored id below the counter), a successful insert appends one row whose id no other row carries, a failed one changes nothing |
| Store.Backend.DeleteGarment | src/components/dashboard/GarmentList.tsx:78-81 | a successful delete removes the id's rows, a failed one changes nothing |
| Store.Backend.InsertGoal | src/components/dashboard/FitnessGoals.tsx:87-93 | keeping `Valid`, a successful insert appends one uncompleted goal with a new id, a failed one changes nothing |
| Store.Backend.UpdateGoalCompleted | src/components/dashboard/FitnessGoals.tsx:114-117 | a successful update rewrites the completion flags, a failed one changes nothing |
| Store.Backend.InsertEco | src/components/dashboard/EcoImpact.tsx:34-38 | keeping `Valid`, a successful insert appends one eco row with a new id, a failed one changes nothing |
| Store.Backend.InsertMetric | src/components/dashboard/HealthMetricsGrid.tsx:54-57 | keeping `Valid`, a successful insert appends one metric row with a new id, a failed one changes nothing |
| Store.AuthClient.Send | src/pages/Auth.tsx:24-42 | each request is recorded after the earlier ones |
| GarmentPairing.NewGarment | src/components/dashboard/AddGarmentDialog.tsx:44-51 | the row carries the user, name and type, is paired, has a Bluetooth id iff Bluetooth was chosen and a QR code iff QR, never both; the marker is "BT-" or "QR-" followed by the rendered timestamp |
| GarmentPairing.MarkerTimestamp | src/components/dashboard/AddGarmentDialog.tsx:49-50 | the digits after a marker's prefix read back as the creation timestamp |
| GarmentPairing.SelectMethodSpec | src/components/dashboard/AddGarmentDialog.tsx:24-31 | selecting a method records it, enters "pairing", raises the spinner, keeps the details |
| GarmentPairing.ResetIdempotent | src/components/dashboard/AddGarmentDialog.tsx:62-68 | reset yields the initial wizard state, and twice is once |
| GarmentPairing.TimeoutAfterReset | src/components/dashboard/AddGarmentDialog.tsx:30-36 | the un-cancelled timeout lands on "success" even after a reset; a garment completed from there has neither marker |
| GarmentPairing.BluetoothScenario | src/components/dashboard/AddGarmentDialog.tsx:24-60 | Bluetooth pairing then "Test Shirt"/"shirt" inserts one paired row with a Bluetooth id and no QR code |
| GarmentPairing.AddGarmentDialog.constructor | src/components/dashboard/AddGarmentDialog.tsx:17-22 | the wizard starts at "method" with nothing chosen |
| GarmentPairing.AddGarmentDialog.HandleMethodSelect | src/components/dashboard/AddGarmentDialog.tsx:24-31 | offered only in the "method" step; the wizard takes the selection step and one more timeout is scheduled |
| GarmentPairing.AddGarmentDialog.PairingTimeout | src/components/dashboard/AddGarmentDialog.tsx:32-35 | a scheduled timeout fires: spinner off, step "success" |
| GarmentPairing.AddGarmentDialog.SetGarmentName | src/components/dashboard/AddGarmentDialog.tsx:137 | the name field follows the input |
| GarmentPairing.AddGarmentDialog.SetGarmentType | src/components/dashboard/AddGarmentDialog.tsx:144 | the type field follows the select |
| GarmentPairing.AddGarmentDialog.ResetDialog | src/components/dashboard/AddGarmentDialog.tsx:62-68 | the wizard returns to its initial state; scheduled timeouts survive |
| GarmentPairing.AddGarmentDialog.HandleComplete | src/components/dashboard/AddGarmentDialog.tsx:38-60 | offered only in the "success" step; missing details: an error and nothing else; insert failure: an error, dialog unchanged; success: the row is stored with the counter's next id, the dialog closes and resets; the backend stays `Valid` |
| GarmentPairing.AddGarmentDialog.OnOpenChange | src/components/dashboard/AddGarmentDialog.tsx:71-74 | closing always resets, opening leaves the wizard alone |
| GarmentPairing.AddGarmentDialog.ParentSetsOpen | src/pages/Dashboard.tsx:89-93 | the parent's flag is the dialog's `open` and nothing else changes |
| FitnessGoals.TrimStart | src/components/dashboard/FitnessGoals.tsx:19 | removes exactly the leading white space |
| FitnessGoals.TrimEnd | src/components/dashboard/FitnessGoals.tsx:19 | removes exactly the trailing white space |
| FitnessGoals.Trim | src/components/dashboard/FitnessGoals.tsx:19 | the trimmed title neither starts nor ends with white space |
| FitnessGoals.TrimIdempotent | src/components/dashboard/FitnessGoals.tsx:19 | trimming twice is trimming once |
| FitnessGoals.TrimEmpty | src/components/dashboard/FitnessGoals.tsx:19 | a title trims to empty iff it is all white space |
| FitnessGoals.TitleIssue | src/components/dashboard/FitnessGoals.tsx:19 | the title passes iff its trimmed form has 1 to 200 UTF-16 code units; otherwise "Title is required" or "Title must be less than 200 characters" |
| FitnessGoals.GoalSchema | src/components/dashboard/FitnessGoals.tsx:18-21 | valid iff the trimmed title has 1 to 200 UTF-16 code units and 0 < target <= 1,000,000; the trimmed title is kept; each failure's first message |
| FitnessGoals.CheckNewGoal | src/components/dashboard/FitnessGoals.tsx:76-85 | NaN is refused with "Please enter a valid number" before the schema runs; an infinite `parseInt` result is always refused, with "Must be a whole number" when the title passes |
| FitnessGoals.BlankTitleRefused | src/components/dashboard/FitnessGoals.tsx:76-85 | an all-white-space title is refused with "Title is required" whenever the target is not NaN |
| FitnessGoals.SchemaSeesTrimOnly | src/components/dashboard/FitnessGoals.tsx:19 | titles with the same trimmed form validate alike |
| FitnessGoals.ValidatedGoalRevalidates | src/components/dashboard/FitnessGoals.tsx:82-89 | the stored, trimmed title validates as the typed one did |
| FitnessGoals.DefaultGoals | src/components/dashboard/FitnessGoals.tsx:43-62 | there are three defaults |
| FitnessGoals.KeptAll | src/components/dashboard/FitnessGoals.tsx:64-69 | when every seed insert succeeds, exactly the defaults are stored, in order |
| FitnessGoals.ProgressWidth | src/components/dashboard/FitnessGoals.tsx:189 | never above 100; 100 exactly when the goal is reached; at least 0 for a non-negative value; a zero target is non-finite unless the value is positive |
| FitnessGoals.FitnessGoalsWidget.constructor | src/components/dashboard/FitnessGoals.tsx:24-27 | no goals, the form closed, both inputs empty, no toast and no refetch pending |
| FitnessGoals.FitnessGoalsWidget.ToggleForm | src/components/dashboard/FitnessGoals.tsx:126 | the form's visibility flips, nothing else changes |
| FitnessGoals.FitnessGoalsWidget.SetInputs | src/components/dashboard/FitnessGoals.tsx:141-148 | the inputs follow the typed text |
| FitnessGoals.FitnessGoalsWidget.FetchGoals | src/components/dashboard/FitnessGoals.tsx:33-72 | data: the user's goals newest first, no insert; no data: the three defaults appended in order (those whose insert succeeds), uncompleted, with consecutive new ids that advance the counter by the number kept, then one refetch |
| FitnessGoals.FitnessGoalsWidget.SeedDefaults | src/components/dashboard/FitnessGoals.tsx:64-69 | the loop keeps the earlier rows, appends the kept defaults in order, uncompleted, with consecutive new ids, and keeps the backend `Valid` |
| FitnessGoals.SeedStep | src/components/dashboard/FitnessGoals.tsx:64-69 | one turn of the loop, kept or not, extends the seeded rows as the kept prefix of the defaults |
| FitnessGoals.FitnessGoalsWidget.HandleAddGoal | src/components/dashboard/FitnessGoals.tsx:74-111 | offered only while the form is open; a refused goal shows its message and inserts nothing; an accepted one is inserted with value 0, type custom and the counter's next id; success clears and closes the form and refetches, failure keeps it |
| FitnessGoals.FitnessGoalsWidget.ToggleGoalComplete | src/components/dashboard/FitnessGoals.tsx:113-119 | the row with the id gets the negated flag, then a refetch |
| OtpVerification.FailureText | src/components/auth/OTPVerification.tsx:37 | the server's message, or "Invalid verification code" when it is empty |
| OtpVerification.Capped | src/components/auth/OTPVerification.tsx:62-65 | the kept code is the longest prefix of the typed value of at most six UTF-16 code units, the whole value when short enough |
| OtpVerification.VerifyRequest | src/components/auth/OTPVerification.tsx:26-30 | the request carries the email, the code as token and type "email" |
| OtpVerification.OtpGate.constructor | src/components/auth/OTPVerification.tsx:15-16 | an empty code, not verifying, no request pending, `onVerified` not yet called, and the gate `Valid` |
| OtpVerification.OtpGate.SetOtp | src/components/auth/OTPVerification.tsx:62-65 | the code holds the capped input |
| OtpVerification.OtpGate.HandleVerify | src/components/auth/OTPVerification.tsx:18-30 | a code whose `.length` (UTF-16 code units) is not six is refused with no request; otherwise the flag is raised and one request is sent |
| OtpVerification.OtpGate.ClickVerify | src/components/auth/OTPVerification.tsx:79-83 | a disabled button (verifying, or `.length` not six code units) sends nothing; an enabled one sends the request |
| OtpVerification.OtpGate.VerifyAnswered | src/components/auth/OTPVerification.tsx:32-40 | success toasts and calls `onVerified` once, failure toasts the message; the flag is lowered either way |
| GarmentList.DeleteAbsentId | src/components/dashboard/GarmentList.tsx:78-81 | deleting an id that no row carries changes nothing |
| GarmentList.DeleteIdempotent | src/components/dashboard/GarmentList.tsx:78-81 | deleting twice is deleting once |
| GarmentList.DeleteChangesIffPresent | src/components/dashboard/GarmentList.tsx:78-81 | a delete changes the table iff some row carries the id |
| GarmentList.FetchAfterDelete | src/components/dashboard/GarmentList.tsx:61-90 | after a delete, the refetched list holds only the user's other rows, newest first |
| GarmentList.GarmentListView.constructor | src/components/dashboard/GarmentList.tsx:33-54 | no garments and no pending id, the callback not yet run, and the realtime channel on the user's garments open |
| GarmentList.GarmentListView.AskDelete | src/components/dashboard/GarmentList.tsx:116 | the trash button records the pending id |
| GarmentList.GarmentListView.ConfirmOpenChange | src/components/dashboard/GarmentList.tsx:151 | dismissing the confirmation clears the pending id and deletes nothing |
| GarmentList.GarmentListView.HandleDeleteGarment | src/components/dashboard/GarmentList.tsx:75-90 | no pending id: nothing happens; success: the id's rows are gone, the id is cleared, the callback runs once; failure: the id is kept, no callback |
| GarmentList.GarmentListView.ClickRemove | src/components/dashboard/GarmentList.tsx:151-166 | a click on "Remove" always sends the delete of the pending id, then closes the dialog: no pending id afterwards, the rows gone and the callback run only on success, and the outcome's toast |
| GarmentList.GarmentListView.FetchGarments | src/components/dashboard/GarmentList.tsx:61-73 | rows: the user's garments newest first; null data: empty; error: the list is kept and an error shown |
| GarmentList.GarmentListView.ChangeEvent | src/components/dashboard/GarmentList.tsx:47-53 | a change event refetches while the channel is open, and does nothing once it is removed |
| GarmentList.GarmentListView.Teardown | src/components/dashboard/GarmentList.tsx:56-58 | the channel is removed, nothing else changes |
| AuthPage.ToggleSpec | src/pages/Auth.tsx:132 | the toggle flips the mode, keeps email, password and full name, and twice is once |
| AuthPage.FullNameOnlyGatesSignUp | src/pages/Auth.tsx:75-86 | an empty full name blocks submission in sign-up mode only |
| AuthPage.RequestFor | src/pages/Auth.tsx:23-42 | sign-up sends email, password, full name and redirect origin + "/"; sign-in sends email and password |
| AuthPage.Settle | src/pages/Auth.tsx:35-49 | an error shows its message with no mode change or navigation; sign-up success switches to sign-in without navigating; sign-in success goes to /dashboard |
| AuthPage.AuthView.constructor | src/pages/Auth.tsx:12-16 | the form starts empty in sign-in mode, not loading |
| AuthPage.AuthView.EditFields | src/pages/Auth.tsx:82-107 | the fields follow the inputs |
| AuthPage.AuthView.Toggle | src/pages/Auth.tsx:132 | the form toggles as `ToggleMode` says |
| AuthPage.AuthView.Submit | src/pages/Auth.tsx:18-33 | a blocked submit does nothing; otherwise loading is raised and the request for the current mode is sent |
| AuthPage.AuthView.Answered | src/pages/Auth.tsx:35-52 | the answer is judged by the mode of its submit, and loading is false after every outcome |
| DashboardPage.ObserveIdempotent | src/pages/Dashboard.tsx:20-36 | no session navigates to /auth, a session sets the user; observing twice is observing once |
| DashboardPage.RedeliveryHarmless | src/pages/Dashboard.tsx:20-36 | the same observation delivered again leaves the state it found |
| DashboardPage.ApplyAllUser | src/pages/Dashboard.tsx:20-36 | after any observations the user is the last session's, or the initial one; a null session does not clear it |
| DashboardPage.ApplyAllLocation | src/pages/Dashboard.tsx:20-36 | after any observations the location is /auth iff it was already or some observation had no session |
| DashboardPage.DashboardView.constructor | src/pages/Dashboard.tsx:14-17 | no user, dialog closed, listener subscribed |
| DashboardPage.DashboardView.InitialSession | src/pages/Dashboard.tsx:20-26 | the initial session applies the observation rule |
| DashboardPage.DashboardView.ListenerEvent | src/pages/Dashboard.tsx:30-36 | a notification applies the same rule while subscribed, and nothing after teardown |
| DashboardPage.DashboardView.Teardown | src/pages/Dashboard.tsx:38 | the listener is unsubscribed |
| DashboardPage.DashboardView.HandleSignOut | src/pages/Dashboard.tsx:41-45 | on the rendered page, the sign-out request is sent, then the toast and /auth |
| DashboardPage.DashboardView.AddGarmentClicked | src/pages/Dashboard.tsx:47-58 | the button exists only once a user is set; it opens the dialog and leaves the wizard state untouched |
| IndexPage.Redirect | src/pages/Index.tsx:13-23 | a session redirects to /dashboard, no session stays |
| IndexPage.FollowIdempotent | src/pages/Index.tsx:13-23 | the same observation twice targets the same destination as once |
| IndexPage.FollowAllSpec | src/pages/Index.tsx:10-26 | over any interleaving of the two sources, the visitor ends on /dashboard iff some observation carried a session |
| IndexPage.IndexView.constructor | src/pages/Index.tsx:10-17 | the visitor starts on the landing page with the auth listener subscribed |
| IndexPage.IndexView.ListenerEvent | src/pages/Index.tsx:13-17 | a notification applies the rule while subscribed |
| IndexPage.IndexView.InitialSession | src/pages/Index.tsx:19-23 | the initial session applies the same rule |
| IndexPage.IndexView.Teardown | src/pages/Index.tsx:25 | the listener is unsubscribed |
| IndexPage.IndexView.SignInClicked | src/pages/Index.tsx:38 | "Sign In" navigates to /auth |
| IndexPage.IndexView.GetStartedClicked | src/pages/Index.tsx:63 | "Get Started" navigates to /auth |
| EcoImpact.IsoString | src/components/dashboard/EcoImpact.tsx:22 | the ISO rendering of a calendar instant has 24 characters |
| EcoImpact.MonthKey | src/components/dashboard/EcoImpact.tsx:22 | `.slice(0, 7)` is the first seven characters, or all of a shorter string |
| EcoImpact.MonthKeyOfIso | src/components/dashboard/EcoImpact.tsx:22 | the key of a timestamp is its `YYYY-MM` |
| EcoImpact.SameKeyIffSameMonth | src/components/dashboard/EcoImpact.tsx:22-29 | two instants share a key iff they fall in the same year and month |
| EcoImpact.Found | src/components/dashboard/EcoImpact.tsx:24-31 | data arrives iff the query succeeds and exactly one row matches user and month |
| EcoImpact.MatchesAfterAppend | src/components/dashboard/EcoImpact.tsx:24-38 | an appended row joins the matches iff it matches |
| EcoImpact.CreateThenFind | src/components/dashboard/EcoImpact.tsx:31-38 | after the first visit of a month inserts its row, the next visit finds it |
| EcoImpact.DuplicatesNeverSettle | src/components/dashboard/EcoImpact.tsx:29-38 | with two rows for a month, no visit finds one and each adds another |
| EcoImpact.EcoImpactCard.constructor | src/components/dashboard/EcoImpact.tsx:15 | the figure starts at 14.53 |
| EcoImpact.EcoImpactCard.FetchEcoImpact | src/components/dashboard/EcoImpact.tsx:21-40 | a found row's amount is shown and nothing inserted; no row: one row (user, month, 14.53) inserted with the next id, the counter advancing only then, and the figure kept |
| HealthMetrics.Jitter | src/components/dashboard/HealthMetricsGrid.tsx:61-71 | absent stays absent; heart rate moves by d with -1.5 <= d < 1.5; breathing rate ends in [12, 20]; steps rise by 0 to 9; the other fields are unchanged |
| HealthMetrics.JitterAllSpec | src/components/dashboard/HealthMetricsGrid.tsx:23-25 | over any ticks, steps never fall and rise at most 9 per tick, breathing stays in [12, 20], the fixed fields never change |
| HealthMetrics.MetricsGrid.constructor | src/components/dashboard/HealthMetricsGrid.tsx:18-28 | no metrics yet, interval installed |
| HealthMetrics.MetricsGrid.Tick | src/components/dashboard/HealthMetricsGrid.tsx:23-25 | an interval callback applies one jitter step, and none after teardown |
| HealthMetrics.MetricsGrid.Unmount | src/components/dashboard/HealthMetricsGrid.tsx:27 | the interval is cleared |
| HealthMetrics.MetricsGrid.FetchLatestMetrics | src/components/dashboard/HealthMetricsGrid.tsx:30-59 | a stored sample is shown and nothing inserted; otherwise the mock values are shown and inserted for the user with the next id, the counter advancing only on success |
| HealthMetrics.SeedThenFind | src/components/dashboard/HealthMetricsGrid.tsx:39-57 | after the mock sample is stored, the next fetch finds exactly it |

## Left out

- The backend itself, meaning its auth server, row store and realtime broker, is not modelled. It appears only as tables plus an outcome flag per call.
- Server-generated `id` and `created_at` values are one counter, `Store.Backend.nextId`. Real ids are UUID strings, and timestamps are not always unique or ordered like the counter.
- Concurrency is modelled only for two handlers, whose awaited answer is a separate method that the caller may deliver at any later point: `AuthPage.AuthView.Submit` with `Answered`, and `OtpVerification.OtpGate.HandleVerify` with `VerifyAnswered`.
- Every other handler sends its request and receives the answer in one step: `HandleComplete`, `HandleAddGoal`, `ToggleGoalComplete`, `FetchGoals` with `SeedDefaults`, `HandleDeleteGarment`, `FetchGarments`, `FetchEcoImpact`, `FetchLatestMetrics` and `HandleSignOut`. Nothing can happen while their answer is awaited.
- A double submit is therefore not represented. "Complete Setup" (`src/components/dashboard/AddGarmentDialog.tsx:159-160`) and "Add Goal" (`src/components/dashboard/FitnessGoals.tsx:151`) stay enabled while their insert is awaited, so a second click in the source sends a second insert of the same row. In the model the first call has already finished by then; after a success it has reset the wizard or closed the goal form, so no second insert follows.
- Console output and rendering are not modelled. Nor are React's scheduling, batching and stale-closure effects.
- The OAuth buttons (`src/pages/Auth.tsx:141-148`) and "Learn More" (`src/pages/Index.tsx:70-76`) have no handlers.
- The performance charts, the loading skeleton, the learn-more dialog and the eco chart are static mock data and markup.
- OTP verification's `onCancel` is a prop callback with no logic of its own.
- Email well-formedness (`type="email"`) is a parameter, because the browser decides it.
- `parseInt`'s result is a parameter (`FitnessGoals.ParsedInt`: NaN, a whole number, or an infinity), because its parsing rules are not modelled.
- FitnessGoals.CheckNewGoal: the zod "Must be a whole number" check fires only for an infinite `parseInt` result; a finite result beyond 2^53 is modelled as the exact integer rather than the nearest double, which changes no outcome since any such value is out of range either way ("Value too large" above, "Must be greater than 0" below).
- Numbers are mathematical `int` and `real`, not IEEE doubles: rounding and `parseFloat(x.toString())` behave exactly.
- OtpVerification.Capped: when the sixth code unit is the first half of a surrogate pair, `.slice(0, 6)` keeps that lone half, which a Dafny string cannot hold; the model drops the whole character, so such a code has five code units here and six in the source.
- HealthMetrics.Jitter: the bounds hold for exact reals. Floating-point rounding of `(r - 0.5) * 3` is not modelled.
- FitnessGoals.ProgressWidth: NaN and negative infinity (a zero target with a zero or negative value) are both `None`.
- Metric rows are not nullable. A stored row's null columns are not modelled.
- EcoImpact.IsoString: years beyond 9999, which `toISOString` prints with six digits and a sign, are not modelled. The card itself works on any string.
- Garment rows fetched by the list are shown as stored. Their card rendering is not modelled.
- GarmentList.GarmentListView.ClickRemove: Radix `AlertDialogAction` runs `handleDeleteGarment` and then closes the dialog, so the delete is always sent and the dialog always ends closed with no pending id, after a failed delete as well. The model delivers the delete's answer before that close; in the source the close clears the id while the answer is still awaited, which gives the same end state unless the user picks another garment in between, an interleaving the model does not represent. `HandleDeleteGarment` alone is the handler without the close; `ConfirmOpenChange(false)` alone is Cancel, Escape or a click outside.
- Common.Decimal: numbers of 10^21 and above, which JavaScript prints in exponent form, are not modelled; `Date.now()` is far below that.
- The catch branch of `handleAddGoal` for errors other than zod's ("Invalid goal data", `src/components/dashboard/FitnessGoals.tsx:104-109`) is not modelled: the backend client returns its errors instead of throwing them, so no such error reaches it.
- The realtime channel's plumbing is left out, including the `garments-changes` name and the server-side filter. Only its events and its removal are modelled.
