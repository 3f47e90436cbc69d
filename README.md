# Campus Find: bookings, availability, movers and sign-up in Dafny

This project models the request-handling core of Campus Find, a Django site where
landlords list rental properties, tenants request bookings, landlords approve or
reject them, and moving companies list services that users rate. It also models
passwordless sign-up by email link.

The database is a set of in-memory tables: maps from primary key to a row value.
Each view is modelled in two forms:

- a pure step function on those tables, which specifies the view; and
- a method on a class holding the tables, which performs the view the way the
  Python code does (load a row, change its fields, save it).

Each method is proved to produce exactly what its step function gives. The
properties of each view are lemmas about its step function.

Modules, one per source file:

- `Common`: helpers for Python's built-ins, which every other module uses.
  Covered: `request.POST.get`, `str.strip`, `str.split`/`join`, `int()` on text,
  `str(n)`, Django's `icontains`, and `QuerySet.filter`.
- `Houses` (houses/models.py): the property row, the `House` instance whose
  `save` recomputes `is_available`, and `get_amenities_list`.
- `Bookings` (booking/models.py): the booking row, its status values and
  defaults, the unique (tenant, property) pair, the cascading deletes, and the
  status counts.
- `BookingViews` (booking/views.py): creating, cancelling, approving and rejecting
  a booking. The `Ledger` class performs each of these on the booking and
  property tables.
- `Movers` (movers/models.py): the moving service, the rating table keyed by
  (service, user), and `rating_summary`.
- `MoverViews` (movers/views.py): the filtered list, rating submission,
  `add_mover`, `edit_mover`, and the owner's status actions on mover bookings.
  The `MoverSite` class performs these.
- `Accounts` (accounts/views.py): `register`, with its username loop and its
  rollback when sending fails, and `verify_email`. The `AccountStore` class
  performs these.

The model follows the code as written, including these behaviours:

- `approve_booking` and `reject_booking` do not check the booking's current
  status. A rejected or cancelled booking can be approved, and approving the same
  booking twice takes two units (`BookingViews.ApproveTwiceTakesTwoUnits`).
- The two booking pages count pending, approved and rejected bookings only.
  Cancelled bookings are not counted.
- `add_mover` strips every text field except `rate_per_km`.
- The unit counters are not clamped in one place. The approve view guards with
  `available_units > 0` and the cancel view with `available_units < total_units`.
  `BookingViews.StepsKeepUnitsBounded` proves that these two guards keep
  `0 <= available_units <= total_units`.
- The counters need not balance, though. Approving with no unit left takes none, but cancelling that approved booking still returns one on a property with at least one unit (`BookingViews.ApproveWithoutUnitThenCancelAddsUnit`).
- Nothing in `houses/models.py` stops `available_units` from exceeding `total_units`. On such a property approving takes a unit, but the cancel guard does not give it back (`BookingViews.ApproveThenCancelOverTotalLosesUnit`).
- `register` checks for an existing account by comparing the email exactly as
  submitted. `create_user` then stores the email with its domain lower-cased.
  So an email whose domain has a capital letter can register twice, and both
  accounts hold the same stored email
  (`Accounts.MixedCaseDomainRegistersTwice`). Emails are therefore not unique
  in the model's user table, just as `auth_user` does not make them unique.

## Model

| member | source | states |
|---|---|---|
| Common.StripShape | movers/views.py:74-78 | `strip()` keeps a slice of the text that neither starts nor ends with whitespace, and everything cut off is whitespace |
| Common.StripIdempotent | movers/views.py:116-120 | stripping a stripped value changes nothing |
| Common.StripUnpadded | movers/views.py:116-120 | text without surrounding whitespace is its own strip |
| Common.StripEmptyIffBlank | accounts/views.py:18-22 | a value is empty after `strip()` exactly when all of it is whitespace |
| Common.SplitShape | houses/models.py:66-70 | `split(',')` gives one more piece than there are commas, and no piece holds a comma |
| Common.JoinSplit | houses/models.py:66-70 | joining the pieces of `split(',')` with commas gives back the field |
| Common.SplitJoin | houses/models.py:66-70 | comma-free pieces are recovered by splitting their comma join |
| Common.SplitFree | houses/models.py:66-70 | a field without a comma splits into itself alone |
| Common.SplitHead | accounts/views.py:31 | `split('@')[0]` is the text before the first '@', or the whole text when there is none |
| Common.DecimalRoundTrip | accounts/views.py:36 | reading back the decimal digits of `n` gives `n` |
| Common.DecimalInjective | accounts/views.py:36 | different numbers have different decimal renderings |
| Common.ParseIntRoundTrip | movers/views.py:49-52 | `int(str(n)) == n` |
| Common.ParseIntNeedsDigit | movers/views.py:49-52 | `int()` of text with no digit raises `ValueError` |
| Common.Filter | movers/views.py:19-22 | a filter keeps every element that passes, as often as it occurs, and nothing else |
| Common.FilterAll | movers/views.py:19-22 | a filter that every element passes keeps the sequence as it is |
| Houses.Saved | houses/models.py:72-78 | the row `save` persists has `is_available` true exactly when `available_units > 0`, and every other field unchanged |
| Houses.SavedIdempotent | houses/models.py:72-78 | saving twice persists the same row as saving once |
| Houses.SavedKeepsUnits | houses/models.py:72-78 | `save` does not clamp either unit counter |
| Houses.House.constructor | houses/models.py:38-54 | a new property has one total unit, one available unit and `is_available` true |
| Houses.House.Load | houses/models.py:6-56 | a loaded instance holds exactly the stored row |
| Houses.House.Save | houses/models.py:72-78 | the instance is updated to the row `Saved` gives, and that row is returned for writing |
| Houses.House.AmenitiesList | houses/models.py:66-70 | an empty field gives no amenities; otherwise the pieces join back into the field, number one more than its commas, and hold no comma |
| Bookings.NewBooking | booking/models.py:21-32 | a booking created without a status is pending |
| Bookings.InsertKeepsUnique | booking/models.py:40 | adding a booking for a pair that has none keeps (tenant, property) unique |
| Bookings.UpdateKeepsUnique | booking/models.py:40 | changing a booking but not its pair keeps (tenant, property) unique |
| Bookings.KeepBookings | booking/models.py:16-17 | a cascading delete keeps exactly the bookings it does not reach, unchanged |
| Bookings.DeleteTenantBookings | booking/models.py:16 | the `tenant` cascade removes exactly the bookings the user made and keeps the rest unchanged |
| Bookings.DeletePropertyBookings | booking/models.py:17 | deleting a property removes exactly its bookings |
| Bookings.WithStatus | booking/views.py:60-62 | `filter(status=...)` selects exactly the bookings in that status |
| Bookings.StatusCountsPartition | booking/models.py:8-13 | the four status groups partition the bookings, so their sizes add up to the total |
| BookingViews.BookingFromPost | booking/views.py:34-43 | a row is written exactly when the four required fields are posted and the lease is absent or a non-negative integer; the row is pending, for the requesting tenant and property, and holds the posted values; the lease defaults to 12 and the message to empty |
| BookingViews.CreateEffect | booking/views.py:28-45 | an unknown property is not found; an existing booking of the pair, in any status, blocks creation; a refused form changes nothing; otherwise the posted row is added as a pending booking under the next id, which advances; unit counters never move |
| BookingViews.ApproveEffect | booking/views.py:113-129 | the booking becomes approved from any status; its property loses one unit and is saved if it has one, and otherwise no property changes; no other booking, property or id counter changes |
| BookingViews.RejectEffect | booking/views.py:138-142 | the booking becomes rejected from any status; no property and no id counter changes |
| BookingViews.CancelEffect | booking/views.py:71-88 | pending becomes cancelled; approved becomes cancelled and its property gets one unit back and is saved, while below its total; no other booking, property or id counter changes; rejected or cancelled bookings are left alone |
| BookingViews.SetStatusKeepsWellFormed | booking/models.py:40 | a status change keeps the pair unique and the references valid |
| BookingViews.CreateKeepsWellFormed | booking/views.py:28-45 | creation keeps the pair unique, ids fresh and every property reference valid |
| BookingViews.TransitionsKeepWellFormed | booking/views.py:67-144 | cancelling, approving and rejecting keep the pair unique and the references valid |
| BookingViews.StepsKeepUnitsBounded | booking/views.py:81-120 | every booking action keeps `0 <= available_units <= total_units` on every property |
| BookingViews.StepsKeepAvailabilityFlags | booking/views.py:81-120 | every booking action keeps each property's `is_available` true exactly when it has a unit left |
| BookingViews.ApproveTwiceTakesTwoUnits | booking/views.py:113-120 | approving the same booking twice is not refused and takes two units |
| BookingViews.ApproveThenCancelRestoresUnits | booking/views.py:76-120 | when approving took a unit and the available units do not exceed the total, cancelling the booking gives it back |
| BookingViews.ApproveWithoutUnitThenCancelAddsUnit | booking/views.py:76-120 | approving with no unit left takes none, yet cancelling the approved booking still adds one on a property with at least one unit, and none on a property with no units |
| BookingViews.ApproveThenCancelOverTotalLosesUnit | booking/views.py:76-120 | on a property with more available units than its total, approving takes a unit and cancelling does not give it back |
| BookingViews.CancelOnlyOnce | booking/views.py:72-88 | a cancelled booking cannot be cancelled again |
| BookingViews.ClosedBookingStillBlocks | booking/views.py:28-30 | a tenant whose booking was rejected or cancelled still cannot book that property again |
| BookingViews.DeleteProperty | booking/models.py:17 | deleting a property removes it and its bookings, keeps every other property and booking as it was, and keeps the tables well formed |
| BookingViews.DeleteUser | booking/models.py:16-17 | deleting a user removes the properties they own (`House.landlord` cascades), the bookings of those properties, and the bookings they made; every other property and booking stays as it was, and the tables stay well formed |
| BookingViews.TenantBookings | booking/views.py:56 | the tenant page lists exactly the bookings the tenant made |
| BookingViews.LandlordBookings | booking/views.py:98 | the landlord page lists exactly the bookings of the landlord's properties |
| BookingViews.CountsOf | booking/views.py:58-63 | each count is the number of listed bookings in its status, and the three add up to the bookings minus the cancelled ones |
| BookingViews.Ledger.CreateBooking | booking/views.py:23-45 | `create_booking` changes the tables exactly as `CreateStep` says and keeps them well formed |
| BookingViews.Ledger.CancelBooking | booking/views.py:67-89 | `cancel_booking`, through a loaded `House` and its `save`, changes the tables exactly as `CancelStep` says |
| BookingViews.Ledger.ApproveBooking | booking/views.py:109-129 | `approve_booking`, through a loaded `House` and its `save`, changes the tables exactly as `ApproveStep` says |
| BookingViews.Ledger.RejectBooking | booking/views.py:134-142 | `reject_booking` changes the tables exactly as `RejectStep` says |
| BookingViews.Ledger.MyBookings | booking/views.py:54-64 | the tenant page's counts, which add up to at most the tenant's bookings |
| BookingViews.Ledger.ManageBookings | booking/views.py:95-106 | the landlord page's counts, which add up to at most the landlord's bookings |
| Movers.RatingsOf | movers/models.py:35 | `service.ratings` is exactly the rows of that service |
| Movers.RatingSummary | movers/models.py:25-31 | the count is the number of the service's ratings; the average is 0 with none, and otherwise times the count gives the sum of the scores |
| Movers.SummaryBetweenScores | movers/models.py:25-31 | the average lies between the service's lowest and highest score |
| Movers.SummaryWithin | movers/models.py:25-31 | when every score of the service is within bounds, so is the average |
| Movers.UpsertSameService | movers/views.py:59-63 | a first rating adds one to the count and its score to the sum; a repeated one keeps the count and replaces the old score |
| Movers.UpsertOtherServices | movers/views.py:59-63 | saving a rating leaves every other service's summary unchanged |
| MoverViews.MoversList | movers/views.py:11-22 | the list keeps exactly the services that match the search text and, with `cleaning=1`, offer cleaning; no filters give every service |
| MoverViews.RateStep | movers/views.py:41-63 | a rating is stored exactly when the visitor is signed in, is not the owner and the score is in 1..5; it overwrites the (service, user) row and nothing else |
| MoverViews.NonNumericScoreStoresNothing | movers/views.py:49-57 | a missing score, or one with no digit, reads as 0 and stores nothing |
| MoverViews.RatingKeepsScoresInRange | movers/views.py:55-63 | rating submission keeps every stored score in 1..5 |
| MoverViews.AverageInRange | movers/models.py:25-31 | while every score is in 1..5, every rated service's average is in 1..5 |
| MoverViews.ResubmissionOverwrites | movers/views.py:59-63 | rating twice is the same as rating once with the second rating; the count does not grow |
| MoverViews.NewServiceFrom | movers/views.py:72-95 | a service is created exactly when name, description, location and phone are not blank and `rate_per_km` is non-empty; its owner is the actor, its name, description, location, phone and email are the stripped submitted values, and its rate is the submitted text unstripped |
| MoverViews.EditedService | movers/views.py:115-125 | each of name, description, location, phone and email becomes the submitted value, or the old one when none is submitted, stripped; the owner is kept; the cleaning flag is whether the box came as "on"; the rate changes only to a non-empty submitted value |
| MoverViews.EditIdempotent | movers/views.py:115-125 | submitting the same edit twice gives the same service as once |
| MoverViews.EmptyEditClearsCleaningOnly | movers/views.py:115-121 | an edit submitting no field keeps a stripped service except that it clears the cleaning flag |
| MoverViews.ActionStatus | movers/views.py:142-147 | "approve" confirms and "reject" rejects whatever the current status; any other action keeps it |
| MoverViews.MoverSite.SubmitRating | movers/views.py:41-65 | the rating POST changes the rating table exactly as `RateStep` says, and nothing else |
| MoverViews.MoverSite.AddMover | movers/views.py:72-97 | a complete form adds one service under a fresh id; an incomplete one changes nothing |
| MoverViews.MoverSite.EditMover | movers/views.py:112-127 | only the owner's service is found, and it is replaced by its edit |
| MoverViews.MoverSite.ManageMoverBooking | movers/views.py:133-149 | only a booking of one of the actor's services is found; its status is set by the action |
| Accounts.BaseUsername | accounts/views.py:31 | the base username is the email's text before the first '@', or the whole email |
| Accounts.CandidateInjective | accounts/views.py:33-37 | different attempts of the loop try different names |
| Accounts.TakenBound | accounts/views.py:35-37 | the loop makes at most one attempt more than there are taken names, so it ends |
| Accounts.FirstFreeIsFirst | accounts/views.py:33-37 | the name found is free and every earlier attempt was taken |
| Accounts.ChosenUsernameIsFirstFree | accounts/views.py:31-37 | the username is free; it is the base when that is free, and otherwise the base followed by the smallest k >= 1 giving a free name |
| Accounts.ChooseUsername | accounts/views.py:31-37 | the `while` loop returns exactly that username |
| Accounts.NormalizeEmailShape | accounts/views.py:39 | the stored email has the submitted length, keeps every character up to the last '@' and lower-cases every character of the domain after it; an email without '@' is kept whole |
| Accounts.NormalizeEmailIdempotent | accounts/views.py:39 | normalising a stored email again changes nothing |
| Accounts.ChosenUsernameEmpty | accounts/views.py:31-41 | the loop yields the empty name, which `create_user` refuses, exactly when the email starts with '@' and the empty name is free |
| Accounts.RegisterStep | accounts/views.py:13-79 | an account is created exactly for a signed-out visitor with a non-blank email no account holds as submitted, a non-empty username and a successful send; it is inactive, under a fresh id, with the normalised email; a failed send leaves the users as they were |
| Accounts.RegisterKeepsWellFormed | accounts/views.py:25-41 | registration keeps usernames unique and keys fresh |
| Accounts.RegisteredEmailRefused | accounts/views.py:25-27 | once an email whose domain is lower-case has an account, registering it again creates nothing |
| Accounts.MixedCaseDomainRegistersTwice | accounts/views.py:25-41 | an email with a capital letter in its domain passes the existing-account check again, and gets a second account under another username with the same stored email |
| Accounts.VerifyStep | accounts/views.py:83-100 | a link to an existing account with a valid token activates that account and changes nothing else; any other link changes nothing |
| Accounts.VerifyKeepsWellFormed | accounts/views.py:92-94 | verification keeps the user table well formed |
| Accounts.RegisterThenVerify | accounts/views.py:39-94 | a new account is inactive, and becomes active once its link is followed with a valid token |
| Accounts.AccountStore.Register | accounts/views.py:13-79 | `register` changes the user table exactly as `RegisterStep` says and keeps it well formed |
| Accounts.AccountStore.CreateAndSend | accounts/views.py:39-77 | the user is created with the given email, deactivated, and deleted again when sending fails |
| Accounts.AccountStore.VerifyEmail | accounts/views.py:83-100 | `verify_email` changes the user table exactly as `VerifyStep` says |

## Left out

- HTML rendering, flash messages, redirects and GET-only pages are not modelled. Neither are `property_detail`, `my_mover_services`, `logout`, `profile` and `dashboard`, which only read and render.
- `login_required` is modelled by the acting user being given. `mover_detail` is the only view here that takes an optional actor.
- Sending the email and the token generator are left out: they are library and cryptographic calls. Whether sending succeeded and whether the token is valid are boolean inputs. Base64 decoding of the user id is an optional id.
- `create_user` is code this model cannot see. It is modelled by two documented behaviours: it refuses an empty username, and it stores the email normalised (`Accounts.NormalizeEmail`). Its other checks are not modelled.
- Text column lengths are not modelled: `tenant_name` (200) and `tenant_phone` (20) of a booking, `username` (150), and `name` (200), `location` (200) and `phone` (50) of a moving service; nor the 254-character limit of the email fields `tenant_email` of a booking, `email` of a moving service and `email` of a user. A database that enforces them refuses a longer value that the model accepts.
- `BookingViews.BookingFromPost`: does not check that `move_in_date` is a valid calendar date, because date parsing is not modelled.
- `Movers.RatingSummary`: the average is exact. The rounding to one decimal place is not modelled, because it works in floating point.
- `rate_per_km` is kept as the submitted text. Its conversion to a decimal, and the database's refusal of malformed text, are not modelled.
- `int()` on text covers ASCII digits with an optional sign and surrounding whitespace. Underscores between digits and non-ASCII digits are not covered.
- `icontains` folds ASCII letters only. Full Unicode case folding is not modelled.
- `MoverViews.PostedBookingId`: a `booking_id` that is not an integer is treated as not found. Django raises a `ValueError` there instead.
- `MoverViews.MoverBookingRow` keeps only the mover and the status of a mover booking. The rest of the mover-booking model, its creation and its cost are not modelled.
- Listing order (`-created_at`) is not modelled. `MoverViews.MoversList` keeps the order of the sequence it is given.
- The property add, edit and delete views are not modelled. Neither are images, the admin, URL routing and the JavaScript files.
- `houses/views.py` `home` is not modelled.
- Concurrency and transactions are not modelled: each view is one atomic step.
- The cascade of `on_delete=CASCADE` from a moving service or a user to its ratings is not modelled. Neither is the `owner` cascade (movers/models.py:8), under which deleting a user also deletes their moving services: `BookingViews.DeleteUser` covers only the booking and property tables.
- The default `rate_per_km` of 50 is not modelled: `add_mover` refuses a form without the field, so no modelled view uses the default.
- `BookingViews.BookingFromPost`: accepts any non-negative lease, because the database's upper limit on an integer column is not modelled.
- `Accounts.NormalizeEmailShape`: lower-cases ASCII capitals only, because Python's full Unicode `lower()` is not modelled.
- `Accounts.RegisterStep`: stores the username without the Unicode NFKC normalisation that `create_user` applies, because Unicode normalisation is not modelled. A username that collides only after that normalisation would make `create_user` fail, and the model does not show that failure.
