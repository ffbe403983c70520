# College bus tracker: a verified model of its core

This project models the core of a college bus tracking system. It has two halves:

- a React client through which students follow their bus, drivers run trips and share their location, and administrators watch the fleet;
- an Express/Mongoose server that registers and logs in users and guards requests.

Each core source file becomes one Dafny module, and the modules follow the program's structure.

- **`Common`** holds the JavaScript behaviour the rest relies on:
  - `trim` over the JavaScript whitespace set;
  - ASCII `toLowerCase`;
  - template rendering of whole numbers and parsing them back;
  - `split` and `join` on one character.
- **`Helpers`**: duration, distance, coordinate, geofence, route-colour and status-colour helpers.
- **`EtaDisplay`**: the ETA card's status buckets and body.
- **`LocationService`**: the geolocation wrapper. A watch is modelled as a stream of browser events turned into callbacks.
- **`TripControls`** and **`DriverDashboard`**: the driver's controls and dashboard, as classes whose fields are the component state.
- **`Signup`**: the sign-up form. Form validation, the payload, and the submit handler are a class over the form state.
- **`Api`**: the client's service layer. It covers:
  - `localStorage`, as a class over a map;
  - the request and response interceptors;
  - the mock login, mock buses and mock trip ids.
- **`AuthContext`**: the session provider (`init`, `login`, `logout`, `useAuth`). The stored user is written in a length-prefixed encoding that stands in for `JSON.stringify`, and it is proved to parse back.
- **`AppRoutes`**: the route table and the `ProtectedRoute` guard.
- **`AdminDashboard`**: the admin dashboard. The counts, badges, selection and render precedence are plain functions; its state is a class.
- **`Navbar`**: the role badge and the avatar letter.
- **`UserModel`**: the `User` schema.
  - Setters, defaults and validators, including mongoose's rules that `required` fails on `""`, that `minlength` and `match` skip absent values, and that each path reports only its first failing validator.
  - The pre-save hook, `comparePassword` and `toJSON`.
- **`BusModel`**: the `Bus` schema and its unique `busId`.
- **`AuthController`**: `register` and `login`.
  - Both are specification functions over a sequence of user documents.
  - `UserCollection` is a class whose methods build the state step by step. Each method is proved equal to its specification function.
- **`AuthMiddleware`**: `authenticate` and `authorize`.

Parameters stand in for what the model cannot see:

- the browser (geolocation answers, whether an API exists);
- time (`now`);
- bcrypt (`hash`, `matches`);
- JWT verification (`verify`, from a token to a user id);
- how each awaited call settled (an `outcome` parameter).

Three behaviours of the code shape the model:

- **User lookups.** Mongoose applies a path's setters to query filters, so both `findOne({ username })` calls look up the trimmed, lower-cased username. As a result, for a registration that runs alone, the username index can never be the one the save violates; only `studentId` can. Two registrations of the same new username that interleave can both pass the lookup, and then the second save fails on the username index; handlers are modelled one request at a time (see "## Left out").
- **Sign-up.** `SignupForm.jsx` calls `authAPI.register`, but `src/services/api.js` defines no `register` in `authAPI`. In this repository every submission that passes the form's own checks therefore throws a `TypeError` before any payload is handed over, and the form shows its message. The model takes the outcome of that call as a parameter: resolved, rejected, or `RegisterMissing` for the repository as it stands, so every branch can be stated.
- **Stored user.** `init` parses the stored user without a `try`. A stored value that does not parse throws inside the effect before `loading` is cleared. The app has no error boundary, so React unmounts the whole tree and the page goes blank. `AuthProvider.Init` states that case separately (`Malformed`): it leaves `user` and `loading` as they were, and nothing after the throw is modelled.

## Model

| member | source | states |
|---|---|---|
| Common.TrimIdempotent | server/models/User.js:9 | Trimming twice is trimming once. |
| Common.TrimKeepsTrimmed | server/models/User.js:9 | A string that neither starts nor ends with whitespace is left as it is. |
| Common.TrimEmptyIff | src/components/driver/TripControls.jsx:42 | Trimming gives "" exactly when the string is all whitespace. |
| Common.ToLowerIdempotent | server/models/User.js:10 | Lower-casing twice is lower-casing once, and whitespace is kept. |
| Common.ParseNatToString | src/utils/helpers.js:29 | Reading back a rendered whole number gives that number. |
| Common.NatToStringInjective | src/services/api.js:172 | Different numbers render differently. |
| Common.SplitJoin | server/middleware/auth.js:7 | Splitting a join of separator-free pieces gives back the pieces. |
| Common.JoinSplit | server/middleware/auth.js:7 | Joining the pieces of a split gives back the original string. |
| Common.SplitAfterFirst | server/middleware/auth.js:7 | After a separator-free first word, the rest of the split is the split of the remainder. |
| Helpers.ValidCoordinateIff | src/utils/helpers.js:54-63 | A pair is accepted iff both values are finite numbers with latitude in [-90, 90] and longitude in [-180, 180]; NaN, the infinities and non-numbers are rejected. |
| Helpers.ValidCoordinateCorners | src/utils/helpers.js:58-61 | The range ends are accepted and values just beyond them are not. |
| Helpers.GeofenceBoundaryInside | src/utils/helpers.js:72-75 | A point exactly on the radius is inside. |
| Helpers.GeofenceMonotone | src/utils/helpers.js:72-75 | Inside a radius means inside every larger radius. |
| Helpers.ReadFormatTime | src/utils/helpers.js:27-36 | Every duration of at least one minute renders to a text that reads back exactly ("N min", "H hr", "H hr M min"). |
| Helpers.FormatTimeInjective | src/utils/helpers.js:27-36 | Distinct durations of a minute or more render differently. |
| Helpers.FormatTimeTwoPart | src/utils/helpers.js:31-35 | In the two-part form the hours are the whole hours and the minutes lie strictly between 0 and 60. |
| Helpers.FormatTimeUnderOne | src/utils/helpers.js:28 | The text is "Less than a minute" iff the duration is under one minute. |
| Helpers.FormatDistanceMeaning | src/utils/helpers.js:43-46 | Under 1000 m the text is the whole metres followed by " m"; above that it is the kilometres to the nearest tenth followed by " km". |
| Helpers.JsRemainder | src/utils/helpers.js:87 | JavaScript's `%`: the remainder has the dividend's sign, and its size is under the divisor. |
| Helpers.RouteColorPeriodic | src/utils/helpers.js:82-88 | For a non-negative index the colour is the palette entry at the index mod 8, so the colours repeat with period 8. |
| Helpers.RouteColorNegative | src/utils/helpers.js:87 | A negative index gives `undefined` unless it is a multiple of 8, which gives the first colour. |
| Helpers.StatusColorMeaning | src/utils/helpers.js:113-121 | The active, delayed and breakdown statuses each get their own colour; every other status gets the idle colour. |
| EtaDisplay.StatusBuckets | src/components/student/ETADisplay.jsx:33-41 | Each bucket is chosen exactly on its half-open interval of durations. |
| EtaDisplay.NoEtaCalculating | src/components/student/ETADisplay.jsx:31 | Without an estimate the badge reads "Calculating..." in the info colour, and no estimate produces that badge. |
| EtaDisplay.StatusMonotone | src/components/student/ETADisplay.jsx:33-41 | A longer duration never gets an earlier bucket. |
| EtaDisplay.StatusBoundaries | src/components/student/ETADisplay.jsx:33-41 | The boundaries 5, 15 and 30 belong to the upper bucket. |
| EtaDisplay.FallbackIsEnRoute | src/services/googleMaps.js:70-107 | The estimate returned from the `catch` (15 minutes) shows as "En Route" in the warning colour. The `catch` is reached when the maps script fails to load or the Distance Matrix service cannot be constructed, and the second happens on every call because the loader already resolves to `google.maps`. A failed routing request rejects past the `catch`, so the card gets no estimate. |
| EtaDisplay.CardBody | src/components/student/ETADisplay.jsx:55-96 | The spinner shows iff loading, the estimate iff not loading and there is one, and the error text otherwise. |
| LocationService.ErrorMessageMeaning | src/services/locationService.js:23-37 | Codes 1, 2 and 3 get their three messages; every other code gets the generic one. |
| LocationService.GetCurrentPosition | src/services/locationService.js:7-46 | Rejects when geolocation is unsupported, rejects with the code's message on an error, and otherwise resolves with the position's fields. |
| LocationService.OnPosition | src/services/locationService.js:61-72 | A fix is handed on iff the coordinates are valid, and it carries the position's fields. |
| LocationService.CallbacksAppend | src/services/locationService.js:54-82 | Delivery is a stream transformation: later events never change earlier callbacks. |
| LocationService.DeliveredFixesValid | src/services/locationService.js:69-71 | Every fix delivered to `onSuccess` has valid coordinates. |
| LocationService.InvalidPositionDropped | src/services/locationService.js:69-71 | An invalid position adds no callback at all. |
| LocationService.ValidPositionDelivered | src/services/locationService.js:62-71 | A valid position adds exactly its own fix, after the earlier callbacks. |
| LocationService.ErrorForwarded | src/services/locationService.js:73-75 | Errors are forwarded unchanged. |
| LocationService.SuccessCountAppend | src/services/locationService.js:54-82 | The number of successes is additive over concatenated callback streams. |
| LocationService.DeliveredCount | src/services/locationService.js:54-82 | The number of fixes delivered equals the number of valid positions reported. |
| LocationService.WatchPosition | src/services/locationService.js:55-58 | Without geolocation there is one error and a null id; otherwise the browser's id is returned. |
| LocationService.ClearWatch | src/services/locationService.js:88-92 | The browser's `clearWatch` is called iff geolocation exists and the id is truthy, so id 0 is never cleared. |
| LocationService.RequestLocationPermission | src/services/locationService.js:98-111 | Returns the query's state, or "unavailable" when the API is missing or the query throws. |
| LocationService.GeofenceAgrees | src/services/locationService.js:126-145 | The checker decides as `isWithinGeofence` does and reports the distance it compared. |
| TripControls.StartOrTripSection | src/components/driver/TripControls.jsx:54-87 | The start button and the trip section are never shown together, and one of them is always shown. |
| TripControls.ControlsState.constructor | src/components/driver/TripControls.jsx:6-8 | Not tracking, an empty reason, the form hidden, and no interval. |
| TripControls.ControlsState.SyncInterval | src/components/driver/TripControls.jsx:10-28 | After the effect, an interval exists iff the trip is active, tracking is on and there is a location, and it sends that bus and location. |
| TripControls.ControlsState.Tick | src/components/driver/TripControls.jsx:15-22 | One interval tick sends exactly the interval's update, or nothing when there is no interval. |
| TripControls.ControlsState.HandleStart | src/components/driver/TripControls.jsx:30-33 | Asks for a trip start, then turns tracking on. |
| TripControls.ControlsState.HandleEnd | src/components/driver/TripControls.jsx:35-38 | Turns tracking off, then asks for a trip end. |
| TripControls.ControlsState.OpenDelayForm | src/components/driver/TripControls.jsx:91 | Shows the delay form and changes nothing else. |
| TripControls.ControlsState.EditDelayReason | src/components/driver/TripControls.jsx:101 | Sets the reason to the text and changes nothing else. |
| TripControls.ControlsState.HandleDelaySubmit | src/components/driver/TripControls.jsx:40-47 | A delay is reported iff the reason is not all whitespace. It reports the untrimmed reason, then clears the reason and hides the form; otherwise nothing changes. |
| TripControls.ControlsState.CancelDelay | src/components/driver/TripControls.jsx:113-116 | Hides the form and clears the reason. |
| TripControls.EndStopsSending | src/components/driver/TripControls.jsx:35-38 | After an end and the effect re-run, no interval remains and nothing more is sent. |
| TripControls.StartThenTickSends | src/components/driver/TripControls.jsx:13-33 | Starting with a location, then a tick, sends exactly one update with that bus and location. |
| DriverDashboard.Dashboard.constructor | src/components/driver/DriverDashboard.jsx:10-12 | No trip, no trip id, and bus "BUS001". |
| DriverDashboard.Dashboard.HandleStartTrip | src/components/driver/DriverDashboard.jsx:14-22 | Calls `startTrip` for the bus. On success the trip is active with the returned id; on failure nothing changes. The trip is active iff there is a trip id. |
| DriverDashboard.Dashboard.HandleEndTrip | src/components/driver/DriverDashboard.jsx:24-32 | Calls `endTrip` with the current id. On success there is no trip and no id; on failure nothing changes. |
| DriverDashboard.Dashboard.HandleReportDelay | src/components/driver/DriverDashboard.jsx:34-41 | Calls `reportDelay` with the bus and reason; the success alert is added iff the call resolved. |
| DriverDashboard.MockTripIdShown | src/components/driver/DriverDashboard.jsx:60-62 | A mock trip id is always a truthy string, so its line is shown. |
| DriverDashboard.MockTripCycle | src/components/driver/DriverDashboard.jsx:14-32 | Starting a trip on the mock and ending it returns to "No Active Trip". The end call carries the id that the start created. |
| Signup.HandleChange | src/components/auth/SignupForm.jsx:84-89 | The named field takes the value and every other field is kept. |
| Signup.ChangesCommute | src/components/auth/SignupForm.jsx:84-89 | Changes to different fields commute. |
| Signup.ValidationOrder | src/components/auth/SignupForm.jsx:31-50 | Each message is reported iff its check fails and every earlier check passes; there is no message iff all four checks pass. |
| Signup.InitialFormRefused | src/components/auth/SignupForm.jsx:10-20 | The empty initial form is refused for its short password. |
| Signup.PayloadShape | src/components/auth/SignupForm.jsx:56-69 | The payload holds the six base fields, plus the student id iff the role is student and the licence iff driver, and never the confirmation. |
| Signup.PayloadIgnoresConfirmation | src/components/auth/SignupForm.jsx:56-69 | Editing the confirmation never changes the payload. |
| Signup.SignupState.constructor | src/components/auth/SignupForm.jsx:10-23 | The initial form, not loading, and both messages empty. |
| Signup.SignupState.Change | src/components/auth/SignupForm.jsx:84-89 | The form becomes the changed form. |
| Signup.SignupState.HandleSubmit | src/components/auth/SignupForm.jsx:25-82 | A failed check shows its message and sends nothing. Otherwise loading ends, and the payload is sent unless `register` is missing. Success shows the success text and schedules navigation to "/". A rejection shows the error's message, or the fallback when it has none. A missing `register` shows the `TypeError`'s message and sends nothing. |
| Signup.SubmitAsWritten | src/components/auth/SignupForm.jsx:71 | With the repository's `authAPI`, a submission never sends a payload, never shows success, never schedules navigation, and always shows an error. |
| Signup.SubmitShowsOneMessage | src/components/auth/SignupForm.jsx:25-82 | After a submission at most one message is shown, and an error is never empty. |
| Api.LocalStorage.SetItem | src/services/api.js:14 | Sets one key and keeps the others. |
| Api.LocalStorage.RemoveItem | src/services/api.js:30-31 | Removes one key and keeps the others. |
| Api.WithoutSession | src/services/api.js:29-34 | Removes the "token" and "user" keys and keeps every other key with its value. |
| Api.WithoutSessionIdempotent | src/services/api.js:110-114 | Clearing the session twice is clearing it once. |
| Api.RequestHeaders | src/services/api.js:12-23 | Authorization is set to "Bearer " and the token iff a truthy token is stored; otherwise the headers are unchanged; other headers are always kept. |
| Api.HandleResponse | src/services/api.js:26-36 | Data is unwrapped and errors are passed on. A 401 clears the session and redirects to "/"; anything else leaves storage unchanged. |
| Api.MockUser | src/services/api.js:40-44 | There is a template iff the role is student, driver or admin, and it has that role. |
| Api.MockLoginMeaning | src/services/api.js:90-108 | Login fails with "Invalid credentials" iff the role is unknown. Otherwise it returns the role's template, named with the username when one is given. |
| Api.MockLoginIgnoresPassword | src/services/api.js:94-105 | The password never affects the result. |
| Api.MockTokenShape | src/services/api.js:101 | The mock token is non-empty and has no space. |
| Api.Logout | src/services/api.js:110-114 | Storage loses exactly the session keys. |
| Api.FindBus | src/services/api.js:122 | Returns the first bus with the id, or none iff no bus has it. |
| Api.GetLocationMeaning | src/services/api.js:118-126 | A known bus gives its location, and an unknown id gives the default location. |
| Api.MockTripId | src/services/api.js:172 | The id is "TRIP" followed by the decimal time. |
| Api.MockTripIdInjective | src/services/api.js:172 | Different times give different trip ids. |
| AuthContext.DecodeEncode | src/context/AuthContext.jsx:24-32 | Parsing the stored form of a user gives back that user. |
| AuthContext.EncodeUserInjective | src/context/AuthContext.jsx:32 | Different users are stored differently. |
| AuthContext.SaveThenRestore | src/context/AuthContext.jsx:20-33 | A session saved with a non-empty token is restored as the same user; an empty token restores nothing. |
| AuthContext.ClearedRestoresNothing | src/context/AuthContext.jsx:41-46 | After the session keys are removed, nothing is restored. |
| AuthContext.MockLoginSurvivesReload | src/context/AuthContext.jsx:20-34 | A mock login, once saved, is restored after a reload. |
| AuthContext.AuthProvider.constructor | src/context/AuthContext.jsx:15-16 | No user, and loading. |
| AuthContext.AuthProvider.Init | src/context/AuthContext.jsx:18-27 | The user is restored iff both keys are truthy, and loading then ends; a stored user that does not parse throws and leaves the state as it was. |
| AuthContext.AuthProvider.Login | src/context/AuthContext.jsx:29-39 | Success stores the user and token and sets the user. Failure rethrows the error and leaves the state and storage unchanged. |
| AuthContext.AuthProvider.Logout | src/context/AuthContext.jsx:41-50 | Both keys are removed, the user becomes none, and the provider is no longer authenticated. |
| AuthContext.LoginThenReload | src/context/AuthContext.jsx:18-39 | Logging in, then mounting a fresh provider, restores the same user and stops loading. A failed login leaves storage unchanged. |
| AuthContext.UseAuth | src/context/AuthContext.jsx:6-12 | Throws "useAuth must be used within AuthProvider" iff there is no provider, and otherwise returns it. |
| AppRoutes.ProtectedRouteMeaning | src/App.jsx:18-34 | Loading gives the spinner whatever the user. The child is shown iff a user is present and, when a list is given, their role is in it. Every other case redirects to "/". |
| AppRoutes.AppContent | src/App.jsx:37-96 | Initialising iff loading. The navbar is shown iff there is a user. The route's spinner is never reached. |
| AppRoutes.DashboardAdmitsOneRole | src/App.jsx:61-88 | Each dashboard path shows its page exactly to its one role and sends everyone else to "/". |
| AppRoutes.RootRedirectsByRole | src/App.jsx:55-58 | A user at the root goes to "/" and their role; a visitor sees the login form. |
| AppRoutes.CatchAllRedirects | src/App.jsx:91 | Every other path redirects to "/". |
| AppRoutes.RootLandsOnDashboard | src/App.jsx:57-88 | A user of a known role reaches their dashboard in one redirect from the root; a user of any other role is only ever redirected. |
| AppRoutes.MockLoginLandsOnDashboard | src/App.jsx:50-88 | Whoever a mock login returns lands on the dashboard of the chosen role, with the navbar. |
| AdminDashboard.CountStatusMeaning | src/components/admin/AdminDashboard.jsx:58-59 | The count is how often the status occurs among the buses' statuses. |
| AdminDashboard.CountStatusAppend | src/components/admin/AdminDashboard.jsx:58-59 | The count over a concatenation is the sum of the counts. |
| AdminDashboard.TwoCountsBounded | src/components/admin/AdminDashboard.jsx:58-74 | The counts of two different statuses add up to at most the total. |
| AdminDashboard.MockFleetCounts | src/services/api.js:45-73 | The mock fleet has two active buses and one delayed bus. |
| AdminDashboard.BadgeClass | src/components/admin/AdminDashboard.jsx:115 | Active gives success, delayed gives warning, and anything else gives info. |
| AdminDashboard.SelectionMeaning | src/components/admin/AdminDashboard.jsx:110 | A bus is marked iff it has the selected bus's id; nothing is marked without a selection. |
| AdminDashboard.Render | src/components/admin/AdminDashboard.jsx:39-74 | A maps error comes first. Next, a map still loading or a pending fetch shows the spinner. Otherwise the dashboard shows the total, the number of active buses and the number of delayed buses, with active + delayed ≤ total. |
| AdminDashboard.AdminState.constructor | src/components/admin/AdminDashboard.jsx:12-14 | No buses, loading, and nothing selected. |
| AdminDashboard.AdminState.FetchBuses | src/components/admin/AdminDashboard.jsx:21-31 | Loading ends whether the fetch resolves or fails; the buses are replaced only on success. |
| AdminDashboard.AdminState.SelectBus | src/components/admin/AdminDashboard.jsx:111 | The clicked bus is selected and marked. |
| AdminDashboard.RefreshKeepsSelection | src/components/admin/AdminDashboard.jsx:110-111 | After a refresh replaces the list, the bus with the selected id is still marked. |
| Navbar.GetRoleDisplay | src/components/common/Navbar.jsx:10-17 | student, driver and admin display as Student, Driver and Admin; any other role is returned unchanged. |
| Navbar.RoleDisplayCapitalises | src/components/common/Navbar.jsx:10-17 | The display differs from the role at most in the case of its first letter. |
| Navbar.Avatar | src/components/common/Navbar.jsx:33 | The avatar is the upper-cased first character of the name, or "U" when the name is missing or empty. |
| Navbar.UserSectionOf | src/components/common/Navbar.jsx:29-38 | The user section is shown iff there is a user, with their name and role badge. |
| Navbar.MockUsersShown | src/components/common/Navbar.jsx:29-38 | The badge and avatar shown for each mock user. |
| UserModel.NormalizeOrderIrrelevant | server/models/User.js:9-10 | Trimming then lower-casing equals lower-casing then trimming. |
| UserModel.NormalizeIdempotent | server/models/User.js:9-10 | Normalising twice is normalising once. |
| UserModel.EmailAcceptedIff | server/models/User.js:33 | The executable matcher accepts exactly the strings in the shape non-space+, "@", non-space+, ".", non-space+. |
| UserModel.EmailExamples | server/models/User.js:33 | Sample addresses that are accepted and refused. |
| UserModel.NewUser | server/models/User.js:5-62 | The username and email are trimmed and lower-cased, and the name and phone are trimmed. The role defaults to student and isActive to true. |
| UserModel.ValidationErrorsIff | server/models/User.js:5-34 | There are no validation errors iff every schema constraint holds. |
| UserModel.RoleDefault | server/models/User.js:18-23 | A missing role becomes student, which passes the enum check. |
| UserModel.EmailOptional | server/models/User.js:29-34 | An empty or absent e-mail is never an error; a given one is an error iff the pattern fails. |
| UserModel.BlankUsernameRequired | server/models/User.js:5-12 | A whitespace-only username fails `required`, not `minlength`. |
| UserModel.Materialize | server/models/User.js:5-65 | A validated document has a username of at least 3 characters, a password of at least 6, a listed role and a non-empty name. |
| UserModel.PreSaveUnmodifiedStable | server/models/User.js:80-82 | A save with an unmodified password never rehashes it. |
| UserModel.PreSaveKeepsPublicForm | server/models/User.js:79-91 | Hashing changes only the password; the public form stays the same. |
| UserModel.ToJSONDropsOnlyPassword | server/models/User.js:99-103 | `toJSON` loses exactly the password. |
| UserModel.ToJSONHidesPassword | server/models/User.js:99-103 | The public form does not depend on the password. |
| BusModel.NewBus | server/models/Bus.js:4-55 | A given busId or name is trimmed and an absent one stays absent. The status defaults to inactive, the passenger count to 0 and isActive to true, and a given value of each is kept. The route name, capacity, driver and location pass through unchanged. |
| BusModel.BusErrorsIff | server/models/Bus.js:4-37 | There are no errors iff the required paths are present and non-empty, capacity ≥ 1, passengers ≥ 0 and the status is one of the four. |
| BusModel.MinimalBusAccepted | server/models/Bus.js:4-55 | Only busId, name, routeName and capacity must be given; the defaults pass, and the location and driver are optional. |
| BusModel.PassengersNotBoundedByCapacity | server/models/Bus.js:24-28 | Any non-negative passenger count is accepted, however large beside the capacity. |
| BusModel.InsertBus | server/models/Bus.js:4-9 | Validation failures are reported first. A duplicate trimmed busId is refused. Otherwise exactly one bus is appended under a fresh id. |
| BusModel.InsertKeepsIdsUnique | server/models/Bus.js:7 | Inserting keeps bus ids unique. |
| BusModel.InsertedStatusInEnum | server/models/Bus.js:33-37 | Every stored status is one of the schema's four. |
| BusModel.ServerStatusColors | src/utils/helpers.js:120 | The server statuses inactive and maintenance are painted in the idle colour; active and delayed get their own colours. |
| AuthController.Find | server/controllers/authController.js:84-87 | The first document in insertion order with the username, and the role when one is given; none iff no document has them. |
| AuthController.UserData | server/controllers/authController.js:28-44 | The six base fields are always present. The student fields are added iff the role is student and a student id is given; the driver fields iff the role is driver and a licence is given. |
| AuthController.RegisterExisting | server/controllers/authController.js:19-25 | A taken (normalised) username gives 400 "Username already exists" and changes nothing. |
| AuthController.RegisterChangesOnlyOn201 | server/controllers/authController.js:14-68 | The status is 201, 400 or 500. Only a 201 changes the collection, and it appends exactly one document. |
| AuthController.RegisteredDocument | server/controllers/authController.js:47-60 | A registered document holds the normalised username, the hashed password and the requested role (student by default), and it answers with its public form and token. |
| AuthController.UsernameIndexNeverViolated | server/controllers/authController.js:19-48 | Because lookup and save share the setters, the username index is never the one violated by a registration that runs alone. |
| AuthController.SaveNewAppendsOne | server/controllers/authController.js:46-60 | A save either fails with a 500 and changes nothing, or replies 201 and appends one document under the new id. |
| AuthController.RegisterKeepsInvariant | server/controllers/authController.js:14-68 | Registration keeps both unique indexes and the fresh-id bound. |
| AuthController.RegisterKeepsDistinctIds | server/controllers/authController.js:47-48 | Registration keeps ids distinct, since the new document takes the fresh id. |
| AuthController.LoginLowerCaseRedundant | server/controllers/authController.js:85 | The explicit lower-casing adds nothing to what the setters do. |
| AuthController.LoginMissingField | server/controllers/authController.js:76-81 | A missing username, password or role gives 400 before any lookup. |
| AuthController.LoginStatus | server/controllers/authController.js:84-127 | No matching user gives 401. An inactive user gives 403. A wrong password gives 401. Otherwise the reply is 200. |
| AuthController.LoginNoEnumeration | server/controllers/authController.js:89-111 | A wrong password and an unknown user get the very same reply. |
| AuthController.LoginInactiveBeforePassword | server/controllers/authController.js:97-102 | A deactivated account is refused whatever password is offered. |
| AuthController.LoginChangesOnlyLastLogin | server/controllers/authController.js:84-127 | Only a 200 changes the collection. Then all three fields were given, and the changed document is the one whose username is the normalised username and whose role is the requested role; it is active and its password matches. Only its `lastLogin` changes, and the reply carries its public form and a token for its id. |
| AuthController.LoginKeepsInvariant | server/controllers/authController.js:114-115 | Logging in keeps both unique indexes. |
| AuthController.LoginKeepsDistinctIds | server/controllers/authController.js:114-115 | Logging in keeps ids distinct. |
| AuthController.UserCollection.constructor | server/models/User.js:4-76 | An empty collection satisfies the indexes. |
| AuthController.UserCollection.Register | server/controllers/authController.js:14-68 | The step-by-step handler yields exactly the specified reply and collection, and keeps the invariant. |
| AuthController.UserCollection.Login | server/controllers/authController.js:71-135 | The step-by-step handler yields exactly the specified reply and collection, and keeps the invariant. |
| AuthMiddleware.SecondWord | server/middleware/auth.js:7 | After a one-word scheme the token is the next word, whatever the scheme says, when that word is non-empty. |
| AuthMiddleware.BearerRoundTrip | server/middleware/auth.js:7-14 | The client's header gives back exactly its token iff the token is non-empty and has no space. |
| AuthMiddleware.FindById | server/middleware/auth.js:23 | Returns a stored document with that id, or none iff no document has it. |
| AuthMiddleware.AuthenticateMeaning | server/middleware/auth.js:4-43 | Every refusal is a 401 (no token, bad token, no user). The request proceeds iff the token verifies to the id of an active user, and it then carries that user's id and role. |
| AuthMiddleware.InactiveUserRefused | server/middleware/auth.js:25-30 | When ids are distinct, an inactive user is refused exactly as a missing one is. |
| AuthMiddleware.StoredInactiveUserRefused | server/middleware/auth.js:25-30 | In a collection kept by the handlers, whose ids are distinct, every inactive user is refused with the missing user's 401. |
| AuthMiddleware.AuthorizeMeaning | server/middleware/auth.js:46-56 | A request proceeds iff its role is among those listed, so never without a role and never with an empty list. |
| AuthMiddleware.MockSessionReachesVerify | server/middleware/auth.js:7 | A client request carrying the stored mock token reaches verification with that very token. |
| AuthMiddleware.NoStoredTokenRefused | server/middleware/auth.js:9-14 | A request with no stored token and no header is refused for want of a token. |

## Left out

- Floating-point arithmetic: haversine distances are an abstract non-negative real, and `formatTime` takes whole minutes.
- `formatDistance`'s kilometre branch uses `toFixed`. Only its nearest-tenth reading is modelled, and only away from exact halves.
- `formatTimestamp` and the ETA card's arrival clock depend on `Date` and the locale and are not modelled.
- `debounce` and every timer are not modelled:
  - the polling intervals of the admin dashboard and the ETA card;
  - the two-second redirect after sign-up;
  - the mocks' `setTimeout` delays.
  Each awaited call is one atomic outcome.
- `TripControls` models the interval as one pending update and each tick as a send. Intervals that overlap across re-renders are not modelled.
- The Google Maps SDK, axios transport, and the browser's geolocation and permissions APIs are not modelled. MongoDB persistence and `populate` are not modelled either. All of these enter as parameters or sequences.
- bcrypt and JWT signing and verification are parameters. A token is represented by the id of the user it names.
- Server exceptions are not modelled: database failures, bcrypt errors and non-string bodies. In `login` they would give the 500 "Error logging in". In `register` they would give a 500 carrying the exception's message, or "Error registering user" when it has none.
- The `error.message || 'Error registering user'` fallback is not modelled, because every modelled failure carries a message.
- Mongoose's ObjectId casting of `busId`, `assignedBusId` and `driver` is not modelled.
- The `timestamps` option and the `createdAt`, `updatedAt` and `lastUpdated` defaults are not modelled.
- Mongoose's duplicate-key message is abbreviated to its code and index name.
- An absent username in a registration filter is taken to match no user.
- The order of mongoose's validation errors is taken to be schema path order.
- `getProfile`, `verifyToken` and `logout` in the auth controller are not modelled. Neither is the route wiring that mounts them.
- The seeding script, `LoginForm`, `StudentDashboard`, `BusTracker`, `BusMonitor`, `LoadingSpinner` and `ThemeToggle` are not modelled. They render without decisions of their own.
- The browser's `required` and `minLength` form checks run before `handleSubmit`. They are not modelled.
- Strings are sequences of code points.
  - JavaScript's `.length` counts UTF-16 units, so lengths differ for characters outside the basic plane.
  - `toLowerCase` and `toUpperCase` are modelled on ASCII letters only.
- Object lookups with a default (`roleMap[role] || role`, `statusColors[status] || ...`) are modelled on their listed keys. Inherited keys such as "constructor" are not modelled.
- `JSON.stringify`/`JSON.parse` of the stored user are replaced by a length-prefixed encoding. Any value written by another program is simply either well-formed or `Malformed`.
- React Router's matching is modelled as exact paths after dropping trailing slashes and ignoring ASCII case. Route ranking beyond the catch-all being last is not modelled.
- Signup.SignupState.HandleSubmit: the `TypeError`'s message is taken to be "authAPI.register is not a function"; a browser may prefix it with the bundler's name for the imported module.
- Concurrent requests are not modelled: each server handler runs to completion on its own collection before the next starts. With interleaving, two registrations of one new username can both pass `findOne` and the second `save` then fails on the username index with a 500.
