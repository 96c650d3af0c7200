# Travel planner: a verified model of its request logic

This project models the decision logic of a travel-planning web application in Dafny:

- The Express API has three parts. First, a bearer-token gate that guards `/profile` and `/trips`. Second, the registration and login handlers with the Sequelize validators of the User and Trip models. Third, the owner-scoped Trip handlers and the Profile handlers. One error handler turns every thrown value into a status and a `{ message }` body.
- `extractPublicId` from the Cloudinary helper is modelled as the JavaScript regular expression it is: a leftmost search, an optional greedy group that may be backtracked, and `.` not matching line terminators.
- From the React client, the model covers the Redux authentication slice, the password-strength scorer, the submit gating and pre-submit checks of the registration page, and the file guards and cancel handlers of the profile page.

Outside services are parameters of the model:

- the generative-AI itinerary call and the image uploader, each returning a value or throwing;
- bcrypt's hash and compare, and jsonwebtoken's sign and verify;
- the primary-key lookup of users and Sequelize's `isEmail`.

Where the code changes state step by step, the model uses classes whose methods are proved against specification functions:

- the Trip, Profile and User tables;
- the Express request the gate writes to;
- the Redux store;
- the two page components.

Module layout, one per source file:

| module | source |
|---|---|
| `Wrappers` | Option, Result, JavaScript truthiness of an optional string |
| `Strings` | `join`, `split` on one character, `startsWith`, numbers in template strings |
| `Http` | the thrown error objects and direct replies |
| `ErrorHandler` | server/middlewares/errorHandler.js |
| `Authentication` | server/middlewares/authentication.js |
| `UserModel` | server/models/user.js |
| `UserController` | server/controllers/UserController.js |
| `TripModel` | server/models/trip.js |
| `TripController` | server/controllers/TripController.js |
| `ProfileController` | server/controllers/ProfileController.js, with the non-null columns of server/models/profile.js |
| `Cloudinary` | `extractPublicId` in server/helpers/cloudinary.js |
| `AuthSlice` | client/src/store/authSlice.js |
| `RegisterPage` | client/src/pages/RegisterPage.jsx |
| `ProfilePage` | client/src/pages/ProfilePage.jsx |

## Behaviour notes

What the code does in cases a reader might expect otherwise; the model follows it in each:

- **Itinerary failure.** When the itinerary generator throws, `createTrip` rethrows its error to the error handler, and no trip is created.
- **Missing or blank trip fields.** They are reported by Sequelize validation as a `SequelizeValidationError`, which the handler answers with 400 and the joined messages.
- **Order of validation messages.** Sequelize records a missing value and a throwing custom validator (`passwordRequirement`) while it walks the attributes in order. A failed built-in `notEmpty` or `isEmail` check settles asynchronously and is recorded after all of those. So a body with a blank title, no country and every other field valid answers "Country required, Title required".
- **Blank text.** Sequelize's `notEmpty` refuses a value made only of whitespace (the `\s` class of JavaScript regular expressions), as well as the empty string. This applies to the six text columns of a trip and to a user's e-mail.
- **Profile creation** first refuses a request without a file with 400 "Image is required". It then uploads and inserts without looking for an existing profile of the caller. Missing columns come back as Sequelize's "Profile.<column> cannot be null" messages.
- **Profile lookups.** `editById` selects the row by owner alone; `:id` only appears in its NotFound message. `editColumnUrl` selects by primary key alone, whoever calls. It checks NotFound before the missing file and stores only the uploaded URL.
- **Login** answers 200 with `{ access_token }` alone. The only login handler checks e-mail and password.
- **Unrecognised errors** answer 500 with `err.message` when it has one. A message-less one answers "Internal Server Error".
- **A message-less `JsonWebTokenError`** answers 401 "Unauthorized".

## Model

| member | source | states |
|---|---|---|
| Strings.JoinPartAt | server/middlewares/errorHandler.js:15 | each part of a `join` appears unchanged at its offset, so the parts keep their order |
| Strings.JoinSplit | server/middlewares/authentication.js:15 | joining the pieces of `split(c)` with `c` gives back the original string |
| Strings.SplitPiecesFree | server/middlewares/authentication.js:15 | no piece of `split(c)` contains `c` |
| Strings.NatToStringInjective | server/controllers/TripController.js:119 | distinct ids are rendered as distinct numerals in the NotFound messages |
| ErrorHandler.Handle | server/middlewares/errorHandler.js:2-58 | the handler is total: the status is always one of 400, 401, 403, 404, 500; it is 500 exactly for the names the switch does not list; a message is missing only for a message-less MulterError with another code |
| ErrorHandler.SequelizeMessagesJoined | server/middlewares/errorHandler.js:12-16 | validation and unique-constraint errors answer 400, and every item message appears in order in the `", "`-joined text |
| ErrorHandler.SingleValidationMessage | server/middlewares/errorHandler.js:12-16 | a single validation message is answered unchanged with 400 |
| ErrorHandler.StatusByName | server/middlewares/errorHandler.js:11-56 | the status depends on the error name alone, as the error taxonomy lists it |
| ErrorHandler.MessageOrDefault | server/middlewares/errorHandler.js:18-55 | for BadRequest, Unauthorized, JsonWebTokenError, Forbidden, NotFound and unknown names, a non-empty message is passed through and an absent or empty one becomes that name's default |
| ErrorHandler.BareJsonWebTokenError | server/middlewares/errorHandler.js:23-27 | a message-less JsonWebTokenError answers 401 "Unauthorized" |
| ErrorHandler.MulterMessages | server/middlewares/errorHandler.js:40-49 | multer errors answer 400; LIMIT_FILE_SIZE and LIMIT_UNEXPECTED_FILE have fixed texts, any other code passes the message through |
| Authentication.BearerAccepts | server/middlewares/authentication.js:15-22 | "Bearer " followed by a non-empty space-free token is accepted with that token, whatever follows a further space |
| Authentication.BearerShape | server/middlewares/authentication.js:15-22 | an accepted header is exactly "Bearer ", the space-free token, then the end or a space |
| Authentication.BareSchemeRejected | server/middlewares/authentication.js:15-22 | "Bearer" alone is rejected |
| Authentication.LowerCaseSchemeRejected | server/middlewares/authentication.js:15-22 | "bearer x" is rejected: the scheme is compared case-sensitively |
| Authentication.DoubleSpaceRejected | server/middlewares/authentication.js:15-22 | "Bearer  x" is rejected: its second piece is empty |
| Authentication.OtherSchemeRejected | server/middlewares/authentication.js:15-22 | "InvalidFormat token" is rejected |
| Authentication.GateEffects | server/middlewares/authentication.js:12-44 | on every path `next` is called exactly once, as the last step; `req.user` is set only right before a `next()` without error; a missing header calls `next` with Unauthorized "Invalid token" and nothing else |
| Authentication.MalformedHeaderNeverVerified | server/middlewares/authentication.js:12-22 | a missing or malformed header fails with "Invalid token" before any verification or lookup |
| Authentication.VerifyErrorForwarded | server/middlewares/authentication.js:25-44 | what token verification throws reaches `next` unchanged, and no user lookup happens |
| Authentication.MissingUserUnauthorized | server/middlewares/authentication.js:28-31 | a verified token whose id has no user fails with Unauthorized, answered 401 "Invalid token", and no identity is stored |
| Authentication.IdentityFromLoadedUser | server/middlewares/authentication.js:34-39 | on success `req.user` is the id and role of the loaded user, not the token's claims, and `next()` gets no argument |
| Authentication.AuthMiddleware | server/middlewares/authentication.js:4-44 | the middleware performs exactly the effects of `GateEffects`, in order, and writes `req.user` only when that trace stores an identity |
| UserModel.EmailErrors | server/models/user.js:20-37 | an e-mail passes exactly when present, not blank (not all whitespace) and well formed; "Email is required" is reported exactly when it is missing or blank, and then first; a non-blank malformed one reports only "Invalid email format" |
| UserModel.PasswordRuleWithoutGoogleId | server/models/user.js:42-46 | without a Google id the password rule holds exactly for a present password of at least five characters |
| UserModel.PasswordFreeWithGoogleId | server/models/user.js:42-52 | with a non-empty Google id any password, or none, passes |
| UserModel.ValidationMessages | server/models/user.js:19-48 | the same messages as the two attributes' rules; validation succeeds exactly when both pass; a missing e-mail's message comes first, and otherwise a failed password rule is reported before the e-mail's `notEmpty` and `isEmail` messages |
| UserModel.PasswordBeforeEmailFormat | server/models/user.js:20-46 | e-mail "bad" and password "abc" give the password message, then "Invalid email format" |
| UserModel.UserTable.Create | server/models/user.js:19-59 | validation runs first, then the unique e-mail index; on success the stored row holds the hash of the password under a fresh id, and ids stay increasing and e-mails unique |
| UserModel.StoredPasswordIsHash | server/models/user.js:57-59 | the password column of a row holding `hash(plain)`, as `Create` appends it, differs from the plain text, compares true with it and false with any other password |
| UserController.FindByEmail | server/controllers/UserController.js:39-43 | the lookup finds a row with that e-mail, and finds none exactly when no row has it |
| UserController.Login | server/controllers/UserController.js:25-58 | a missing e-mail is reported before a missing password; the login succeeds exactly when the user is found and the password compares true, and then answers 200 with the token signed over that user's id and role |
| UserController.UnknownEmailLooksLikeWrongPassword | server/controllers/UserController.js:44-52 | an unknown e-mail and a wrong password fail with the identical Unauthorized "Invalid email/password" |
| UserController.FindsUniqueEmail | server/controllers/UserController.js:39-43 | the only user with an e-mail is the one the lookup finds |
| UserController.LoginAfterCreate | server/controllers/UserController.js:39-58 | after registering, the registered password logs in with a token for the new user, and any other password gets the uniform credentials error |
| UserController.Register | server/controllers/UserController.js:8-22 | `User.create` gets exactly the e-mail and password; success answers 201 naming the e-mail; a validation or unique-index failure is forwarded unchanged and the table is untouched |
| TripModel.MessagesDistinct | server/models/trip.js:17-97 | every attribute reports its own message |
| TripModel.FailedFields | server/models/trip.js:17-97 | an attribute is listed exactly when its value fails its rules; every missing value comes before every blank one, and each group is in attribute order |
| TripModel.ValidationMessages | server/models/trip.js:17-97 | one message per failed attribute, in the order of `FailedFields`; none exactly when `userId` and the itinerary are present and the six other fields are present and not blank (not all whitespace) |
| TripModel.MissingBeforeBlank | server/models/trip.js:22-45 | a blank title with a missing country gives "Country required", then "Title required" |
| TripModel.MessageReported | server/models/trip.js:17-97 | an attribute's message is reported exactly when that attribute fails |
| TripModel.BlankTitleRejected | server/models/trip.js:22-32 | a title of spaces and a tab is present but fails `notEmpty`, so "Title required" is reported |
| TripModel.EmptyItineraryAllowed | server/models/trip.js:94-97 | an empty itinerary passes, since it has no `notEmpty` rule |
| TripModel.StoredStatus | server/models/trip.js:98-101 | a missing status becomes "draft", and a supplied one is kept as given |
| TripModel.Build | server/models/trip.js:17-101 | a draft that passes validation becomes a well-formed row holding the draft's values, with the status defaulted |
| TripModel.RevalidateRow | server/models/trip.js:22-93 | a stored row passes validation again exactly when its six `notEmpty` columns are not blank |
| TripController.Merge | server/controllers/TripController.js:144-156 | present body fields overwrite, absent ones keep their stored value; the id and creation time are kept, and the owner is the caller |
| TripController.EmptyUpdateKeepsTrip | server/controllers/TripController.js:146-156 | an update that names no field, sent by the owner, leaves the trip unchanged |
| TripController.NewestFirst | server/controllers/TripController.js:90-95 | the result holds exactly the owner's trips |
| TripController.NewestFirstOrdered | server/controllers/TripController.js:94 | over a table whose creation times increase, the owner's trips are listed by creation time descending |
| TripController.AppendKeepsRows | server/controllers/TripController.js:55-65 | inserting a well-formed row under the next id and the current time keeps ids and creation times fresh and increasing |
| TripController.UpdateKeepsRows | server/controllers/TripController.js:146-158 | replacing a row by a well-formed one with the same id and creation time keeps ids and creation times fresh and increasing |
| TripController.RemoveKeepsRows | server/controllers/TripController.js:181 | removing one row keeps the table's invariant and every other row |
| TripController.IndexOwned | server/controllers/TripController.js:111-116 | the index found has both the id and the owner, and none is found exactly when no row has both |
| TripController.TripTable.FindOwned | server/controllers/TripController.js:111-116 | the lookup is scoped by id and owner together |
| TripController.TripTable.AllTrips | server/controllers/TripController.js:88-106 | exactly the caller's trips, newest first; a caller without trips gets the empty list, never NotFound |
| TripController.TripTable.GetTripById | server/controllers/TripController.js:108-128 | a trip is returned only when both its id and its owner match; otherwise NotFound "Trip with id <id> not found" |
| TripController.TripTable.CreateTrip | server/controllers/TripController.js:42-86 | a generator failure is forwarded and nothing is created; on success the row is owned by the caller, holds the generated itinerary and the defaulted status, and is appended under a fresh id and a later creation time; the reply's `trip` is that row's nine-column view |
| TripController.ViewDeterminesRow | server/controllers/TripController.js:68-79 | the 201 body's `trip` keeps every column except the owner and the creation time |
| TripController.TripTable.EditTrip | server/controllers/TripController.js:130-164 | a trip the caller does not own is NotFound "Trip not found"; otherwise only the matched row changes, to the merged body, and no row's owner changes |
| TripController.TripTable.DeleteTrip | server/controllers/TripController.js:166-189 | a missing or foreign id is NotFound naming the id; otherwise exactly the matched row is removed and every other row stays |
| TripController.ForeignTripNotFound | server/controllers/TripController.js:111-120 | a trip owned by someone else is never returned to the caller |
| ProfileController.CreateMessages | server/models/profile.js:17-41 | none exactly when the four columns are present; a column's null message is reported exactly when it is missing; empty strings pass |
| ProfileController.NewProfile | server/controllers/ProfileController.js:22-29 | the created row holds the four body fields, the uploaded URL and the caller as owner |
| ProfileController.Patch | server/controllers/ProfileController.js:83-90 | present fields overwrite, absent ones keep their value, the id is kept and the owner is the caller |
| ProfileController.FirstOwnedBy | server/controllers/ProfileController.js:45-49 | the owner's first-inserted row, which is how the model resolves the unordered `findOne`, and none exactly when the owner has no row |
| ProfileController.RowWithId | server/controllers/ProfileController.js:102 | a row with that id, whoever owns it, and none exactly when no row has it |
| ProfileController.LaterProfileShadowed | server/controllers/ProfileController.js:45-49 | under the first-inserted resolution, a second profile of the same owner is never the one the owner's lookups reach |
| ProfileController.FirstProfileFound | server/controllers/ProfileController.js:22-49 | under the first-inserted resolution, an owner's first profile is the one their lookups reach from then on |
| ProfileController.ProfileTable.CreateProfile | server/controllers/ProfileController.js:6-40 | without a file: 400 "Image is required", nothing uploaded or stored; an upload failure is forwarded; then validation; on success the caller's row is appended, with no check for an existing profile |
| ProfileController.ProfileTable.GetProfile | server/controllers/ProfileController.js:43-61 | the caller's profile, or NotFound "Profile not found" exactly when the caller has none |
| ProfileController.ProfileTable.EditById | server/controllers/ProfileController.js:63-97 | the row is chosen by owner alone; `:id` appears only in the NotFound message; only that row changes, to the patched profile |
| ProfileController.ProfileTable.EditColumnUrl | server/controllers/ProfileController.js:99-134 | the row is chosen by primary key alone, whoever calls; NotFound is checked before the missing file; an upload failure is forwarded; only `profilePict` of that row changes |
| ProfileController.EditTargetIgnoresId | server/controllers/ProfileController.js:65-74 | the profile `editById` changes is the caller's first one, never another owner's row, whatever `:id` names |
| ProfileController.PictureReachesForeignProfile | server/controllers/ProfileController.js:101-105 | a caller with no profile still reaches another user's profile by its id |
| ProfileController.RowWithIdUnique | server/controllers/ProfileController.js:102 | on a table of fresh increasing ids, an id designates exactly its own row |
| Cloudinary.LastDot | server/helpers/cloudinary.js:50 | the position of a `.` with none after it, and none exactly when there is no `.` |
| Cloudinary.TailMatch | server/helpers/cloudinary.js:50 | `(.+)\.[^.]+$` matches at a position exactly when some placement of its dot works; the only working placement is the last dot, and the capture runs up to it |
| Cloudinary.DigitRunEnd | server/helpers/cloudinary.js:50 | the end of the longest digit run |
| Cloudinary.VersionEnd | server/helpers/cloudinary.js:50 | the `v<digits>/` group is taken exactly when a `v`, at least one digit and a `/` follow; when it is refused, no later `/` follows digits alone |
| Cloudinary.TailMatchOf | server/helpers/cloudinary.js:50 | after any prefix, a line-terminator-free text followed by a dot and a non-empty dot-free extension is captured whole |
| Cloudinary.MatchAt | server/helpers/cloudinary.js:50 | the version group is tried first and dropped when the rest cannot match after it; a capture starts after the marker and ends at the last dot |
| Cloudinary.MatchAtCapture | server/helpers/cloudinary.js:50 | the capture starts after the version group when that group is kept, and right after the marker otherwise, and ends at the last dot |
| Cloudinary.FirstMatch | server/helpers/cloudinary.js:50-51 | the leftmost `/upload/` at which the rest matches; none exactly when every occurrence fails |
| Cloudinary.ExtractPublicId | server/helpers/cloudinary.js:46-54 | a missing or empty url gives null; otherwise the capture of the leftmost match, or null when there is none |
| Cloudinary.ResultShape | server/helpers/cloudinary.js:50-53 | a result is the text that starts right after a `/upload/`, or right after the `v<digits>/` segment that follows it, and ends before the url's last `.`, which has text after it; the capture holds no line terminator; every earlier occurrence fails |
| Cloudinary.NoMarkerNoId | server/helpers/cloudinary.js:50-53 | a url without `/upload/` gives null |
| Cloudinary.NoDotAfterMarkerNoId | server/helpers/cloudinary.js:50-53 | a url with no `.` after any `/upload/` gives null |
| Cloudinary.LastDotBeforeDotFree | server/helpers/cloudinary.js:50 | a `.` followed by dot-free text is the last dot |
| Cloudinary.SkipToMarker | server/helpers/cloudinary.js:51 | positions that do not start `/upload/` do not change where the search succeeds |
| Cloudinary.DocumentedExample | server/helpers/cloudinary.js:49-53 | `.../image/upload/v123/folder/image.jpg` gives "folder/image" |
| Cloudinary.VersionSegmentBacktracks | server/helpers/cloudinary.js:50 | `/upload/v1/.jpg` gives "v1/": the group is backtracked when nothing could be captured after it |
| Cloudinary.LeftmostOccurrenceWins | server/helpers/cloudinary.js:50-53 | `/upload/a/upload/b.png` gives "a/upload/b": the first occurrence starts the result |
| AuthSlice.Initial | client/src/store/authSlice.js:3-7 | not authenticated, loading, no token |
| AuthSlice.Initialized | client/src/store/authSlice.js:14-21 | a non-empty stored token authenticates and becomes the token; otherwise both fields are untouched; loading ends either way |
| AuthSlice.LoggedIn | client/src/store/authSlice.js:24-29 | the token is stored and held, the state is authenticated, and loading is untouched |
| AuthSlice.LoggedOut | client/src/store/authSlice.js:32-36 | the key is removed, the token dropped and the state unauthenticated; loading is untouched |
| AuthSlice.WithLoading | client/src/store/authSlice.js:39-41 | only `isLoading` changes |
| AuthSlice.ReducersKeepConsistent | client/src/store/authSlice.js:3-41 | the initial state and every reducer keep "authenticated exactly when a token is held, and a held token is the stored one" |
| AuthSlice.LoginThenInitialize | client/src/store/authSlice.js:14-29 | after `login(t)`, dispatching `initializeAuth` again in the same session stays authenticated with token `t` |
| AuthSlice.LogoutThenInitialize | client/src/store/authSlice.js:14-36 | after `logout`, dispatching `initializeAuth` again in the same session stays logged out |
| AuthSlice.ReloadAfterLogin | client/src/store/authSlice.js:3-29 | a reload after `login(t)` starts from the initial state over the stored key, and `initializeAuth` restores the session with `t` exactly when `t` is non-empty |
| AuthSlice.ReloadAfterLogout | client/src/store/authSlice.js:3-36 | a reload after `logout` finds no stored key and stays unauthenticated |
| AuthSlice.LogoutIdempotent | client/src/store/authSlice.js:32-36 | logging out twice is logging out once |
| AuthSlice.EmptyStoredTokenIgnored | client/src/store/authSlice.js:15-16 | an empty stored token does not authenticate |
| AuthSlice.AuthStore.constructor | client/src/store/authSlice.js:3-7 | the store starts in the initial state, which is consistent |
| AuthSlice.AuthStore.InitializeAuth | client/src/store/authSlice.js:14-21 | the in-place reducer leaves the state `Initialized` describes |
| AuthSlice.AuthStore.Login | client/src/store/authSlice.js:24-29 | the in-place reducer leaves the state `LoggedIn` describes |
| AuthSlice.AuthStore.Logout | client/src/store/authSlice.js:32-36 | the in-place reducer leaves the state `LoggedOut` describes |
| AuthSlice.AuthStore.SetLoading | client/src/store/authSlice.js:39-41 | the in-place reducer leaves the state `WithLoading` describes |
| RegisterPage.Score | client/src/pages/RegisterPage.jsx:22-28 | a multiple of 25 from 0 to 100, with 25 for each criterion met: length at least 6, length at least 8, both cases, a digit |
| RegisterPage.CheckPasswordStrength | client/src/pages/RegisterPage.jsx:22-28 | the accumulating checks compute `Score` |
| RegisterPage.ScoreGrows | client/src/pages/RegisterPage.jsx:24-27 | typing one more character never lowers the strength |
| RegisterPage.ShortPasswordsScoreLow | client/src/pages/RegisterPage.jsx:24-25 | a password too short to submit scores at most 50 |
| RegisterPage.StrengthText | client/src/pages/RegisterPage.jsx:96-102 | "" exactly for 0, "Weak" up to 25, "Fair" up to 50, "Good" up to 75, "Strong" above |
| RegisterPage.StrengthColor | client/src/pages/RegisterPage.jsx:89-94 | "danger" exactly up to 25, including 0; "warning" up to 50; "info" up to 75; "success" above |
| RegisterPage.LabelsOfScores | client/src/pages/RegisterPage.jsx:89-102 | the label and colour of each of the five possible scores |
| RegisterPage.PreSubmit | client/src/pages/RegisterPage.jsx:44-60 | a mismatched confirmation is reported before a short password; the request is sent exactly when they match and the password has at least 6 characters |
| RegisterPage.SubmitDisabled | client/src/pages/RegisterPage.jsx:337 | the button is enabled exactly when not loading and the password is empty or equals its confirmation |
| RegisterPage.ConstraintsPass | client/src/pages/RegisterPage.jsx:220-330 | the browser's constraint validation holds exactly when the e-mail, password and confirmation are non-empty, the e-mail is well formed and the terms box is ticked |
| RegisterPage.Submit | client/src/pages/RegisterPage.jsx:214-337 | `handleRegister` runs exactly when the button is enabled and every constraint holds, and then its outcome is `PreSubmit`'s |
| RegisterPage.MismatchAlertUnreachable | client/src/pages/RegisterPage.jsx:44-50 | no submitted form shows the mismatch alert: a required password is non-empty, and then the enabled button means it equals its confirmation |
| RegisterPage.ShortPasswordAlertReachable | client/src/pages/RegisterPage.jsx:53-60 | a well-formed e-mail, the terms ticked and a matching five-letter password pass every gate and show the short-password alert |
| RegisterPage.SubmittedOutcome | client/src/pages/RegisterPage.jsx:44-62 | a submitted form posts exactly when the password has at least 6 characters, and shows the short-password alert otherwise |
| RegisterPage.RegisterForm.HandleChange | client/src/pages/RegisterPage.jsx:31-38 | the named entry is replaced, and the strength is recomputed only for the password |
| RegisterPage.RegisterForm.HandleRegister | client/src/pages/RegisterPage.jsx:40-62 | the outcome is `PreSubmit`'s; an alert changes nothing, a request starts loading |
| RegisterPage.RegisterForm.SubmitForm | client/src/pages/RegisterPage.jsx:214-337 | a submit event runs `handleRegister` only when `Submit` lets it through; otherwise nothing changes; loading starts exactly when a request is sent |
| RegisterPage.RegisterForm.FinishRequest | client/src/pages/RegisterPage.jsx:84-86 | loading ends whatever the outcome, and nothing else changes |
| ProfilePage.FileRejection | client/src/pages/ProfilePage.jsx:96-107 | a file is accepted exactly when its type starts with "image/" and it has at most 5 MiB; the type is checked first |
| ProfilePage.SizeLimitInclusive | client/src/pages/ProfilePage.jsx:103 | exactly 5 MiB is accepted, one byte more is rejected |
| ProfilePage.TypePrefixExact | client/src/pages/ProfilePage.jsx:96 | the type prefix is compared exactly: "Image/png" and "image" are rejected |
| ProfilePage.PicturePath | client/src/pages/ProfilePage.jsx:145 | the upload goes under "/profiles/" |
| ProfilePage.PicturePathInjective | client/src/pages/ProfilePage.jsx:145 | distinct profile ids give distinct upload paths |
| ProfilePage.ProfilePageState.HandleFileChange | client/src/pages/ProfilePage.jsx:92-118 | no file changes nothing; a rejected file clears the input and keeps the previous selection; an accepted one becomes the selection |
| ProfilePage.ProfilePageState.PreviewLoaded | client/src/pages/ProfilePage.jsx:112-116 | the preview becomes the file's data URL; nothing else changes |
| ProfilePage.ProfilePageState.HandleUploadPhoto | client/src/pages/ProfilePage.jsx:127-141 | no request unless the profile has a truthy id and a file is selected, with the id checked first; a request goes to the profile's picture path with the selected file and sets uploading |
| ProfilePage.ProfilePageState.HandleCancelUpload | client/src/pages/ProfilePage.jsx:120-124 | the selection is dropped, the preview is the stored picture and the input is cleared |
| ProfilePage.ProfilePageState.HandleCancelEdit | client/src/pages/ProfilePage.jsx:212-220 | the four form fields are restored from the profile and editing ends |

## Left out

- **Prompt text and module-load check.** The Gemini prompt text and the module-load check of `GEMINI_API_KEY` are foreign calls and configuration. Itinerary generation is a parameter that returns text or throws.
- **Image upload plumbing**: the base64 data URI, the upload folder, multer, `uploadToCloudinary` and `deleteFromCloudinary`. These are calls into a foreign service; `deleteFromCloudinary` swallows its errors, and nothing in the modelled core calls it. The uploader is a parameter that returns a `secure_url` or throws.
- **bcrypt and jsonwebtoken internals.** Hash, compare, sign and verify are uninterpreted parameters. Only "a hash differs from its input, and only the input compares true with it" is taken as given, as a precondition on the lemmas that need it.
- **Sequelize internals.** Sequelize's `InstanceValidator` is not part of this model; the order of its messages is stated in `TripModel.FailedFields` and `UserModel.ValidationMessages` as Sequelize 6 records them. The `isEmail` format check is a predicate parameter. The unique index is a check over the stored rows. SQL is not modelled, and timestamps are a logical clock that grows with every insert.
- **Type coercion.** Sequelize's type checks on `age`, `duration` and `departureDate`, and coercion of numbers, are not modelled. Field values are kept as text.
- **Request-body values.** An explicit JSON `null` in a body is not distinguished from an absent key.
- **Route parameters.** Route ids are natural numbers. Only `editColumnUrl` converts `:id` to a number, with `+req.params.id` (server/controllers/ProfileController.js:101); a non-numeric id, which becomes `NaN` there, is not modelled.
- **Id text in messages.** `getTripById`, `editTrip`, `deleteTrip` and `editById` put the raw `:id` text into their NotFound messages (server/controllers/TripController.js:110, 132, 169; server/controllers/ProfileController.js:65). The model writes the id as its shortest decimal numeral, so a parameter such as "007" appears as "7".
- **String length.** JavaScript measures length in UTF-16 code units; the model counts characters. The two agree for text in the Basic Multilingual Plane.
- **Google sign-in.** The path where a user is created with a `googleId` is not part of the registration handler. The password rule is still modelled with the Google id as an input.
- **No user update.** The core has no operation that updates a user, so that `beforeCreate` never re-hashes on update shows in the model only as hashing inside `Create`.
- **Route wiring.** Express wiring is not modelled: `server/app.js` and the routers. Authentication is mounted before `/profile` and `/trips` (server/routes/index.js:12-15); the model therefore gives every Trip and Profile handler the caller's id as an input, and the uploaded file, when there is one, as another.
- **Upload middleware on the profile routes.** `POST /profile/profiles` has no `upload.single` (server/routes/routes_profile.js:7), so as wired no file reaches `createProfile` and it always answers 400 "Image is required"; the model lets its caller supply a file.
- **Picture route and field names.** The server route is `PATCH /profile/:id/profilePic` with the file field `profilePic` (server/routes/routes_profile.js:10). The profile page sends `PATCH /profiles/<id>/profilePict` with the field `profilePict` (client/src/pages/ProfilePage.jsx:139, 145). The model does not connect the two; `PicturePath` states the client's path, and `EditColumnUrl` the handler's effect.
- **Unreachable NotFound.** The NotFound branch of `getAllTrip` is not modelled, because `findAll` always returns an array.
- **Behaviour found only in the tests**, which target another version of the handlers: the fallback itinerary, "Profile already exists", the id-and-owner scoping of profiles, a local-URL fallback, Google login, and the `user` field of the login reply.
- **Concurrency and logging.** Async ordering, console logging and races between concurrent requests are not modelled; every handler runs to completion on its own.
- **Client side.** Rendering, alerts, navigation and the profile page's request handling after the PATCH is sent are not modelled, nor the rest of the client (routing, the trip pages, the country lookup).
- ProfileController.FirstOwnedBy: `findOne({ where: { userId } })` has no `order`, so when an owner has several profiles the database may return any of them; the model resolves the lookup to the first-inserted row. Nothing stops a second profile (creation does not check for one), so this choice is the model's, not a promise of the source.
- ProfileController.LaterProfileShadowed: holds under the first-inserted resolution of `FirstOwnedBy`; the source guarantees only that some profile of the owner is reached.
- ProfileController.FirstProfileFound: holds under the first-inserted resolution of `FirstOwnedBy`; the source guarantees only that some profile of the owner is reached.
- ProfileController.ProfileTable.GetProfile, `EditById` and `EditTargetIgnoresId` use the same resolution, so for an owner with several profiles they name one particular row where the source may reach any of the owner's rows.
- ProfilePage.ProfilePageState.PreviewLoaded: the browser's `FileReader` finishes asynchronously; the model makes this a separate step, taken after `HandleFileChange` accepts a file.
