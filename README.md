# Points ledger of the recycling-rewards app, in Dafny

The app rewards recycling with points. A user logs recyclables by hand: a quantity of
a material, multiplied by the material's rate and rounded. A user can also photograph
them; a hosted prompt judges the photo, and a fixed table sets the points of a valid
result. Points are spent on rewards from a catalog, and an administrator approves or
rejects pending records. The dashboard, rankings, stats and statistics pages show the
balance, the rank it earns, the recent activity and per-material aggregates.

This project models the part of the app that computes or changes points:

- **`Ledger`**: the account, record and redemption documents.
  - Each transaction body is a pure transition `Apply…` on a `Ledger` value; its
    contract says what the transaction means.
  - The `Store` class holds the three collections as maps and updates them in place.
    Each of its methods is proved to commit exactly its transition's result, or to
    leave everything as it was when the transition aborts (`Atomic`).
- **One module per page**: the handler that calls the store, the form predicates,
  the fixed tables, and the pure computations of what the page displays.
  - `ManualLog`, `PhotoLog`, `Rewards`, `Admin`, `Profile` and `Login` hold the
    handlers. `PhotoLog` and `Admin` keep their component state in a class.
  - `Dashboard` and `Rankings` hold pure computations.
  - `Stats` and `Statistics` hold the loops that build dictionaries, proved against
    the prefix-defined group-by of `Aggregation`.
- **`Verification`**: the points override applied to the prompt's answer. The prompt
  itself is an arbitrary input.

Quantities are exact reals, points are unbounded integers, and dates are milliseconds
or whole days since the epoch.

## Model

| member | source | states |
|---|---|---|
| Common.Utf16Length | src/app/dashboard/profile/page.tsx:50-56 | the length the schemas' minimums compare against: between the character count and twice it, and 0 exactly for the empty string |
| Common.Utf16LengthOfBmp | src/app/dashboard/profile/page.tsx:50-56 | for text of Basic Multilingual Plane characters the length is the character count |
| Common.Utf16LengthAppendAstral | src/app/dashboard/profile/page.tsx:50-56 | a character outside the Basic Multilingual Plane adds two to the length |
| Verification.Parse | src/ai/flows/verify-recycling-flow.ts:25-27 | a string parses to the one enum material whose name it is; a string matching none of the five names parses to nothing |
| Verification.ParseName | src/ai/flows/verify-recycling-flow.ts:25-27 | printing a material and parsing it back gives the same material |
| Verification.TablePoints | src/ai/flows/verify-recycling-flow.ts:98 | a listed material gets its own table value, since none is zero; any other name falls back to 5; the result lies between 5 and 75 |
| Verification.Clamp | src/ai/flows/verify-recycling-flow.ts:88-102 | only `points` changes. An invalid result gets 0. A valid one gets its material's table value (Plástico 20, Papel 15, Vidro 10, Metal 75, Outros 5), or 5 outside the table. The result is always in {0, 5, 10, 15, 20, 75} |
| Verification.Flow | src/ai/flows/verify-recycling-flow.ts:96-104 | an absent output stays absent; a present one comes back overridden |
| Verification.OraclePointsIgnored | src/ai/flows/verify-recycling-flow.ts:96-102 | whatever points the prompt reports, the flow returns the same answer |
| Verification.ValidEarnsPositive | src/ai/flows/verify-recycling-flow.ts:97-98 | a valid result earns between 5 and 75 points |
| Ledger.PointsShown | src/app/dashboard/page.tsx:93 | the profile's `totalPoints`, or 0 when the profile or the field is missing |
| Ledger.ShownPointsNonNegative | src/app/dashboard/rankings/page.tsx:52 | while no balance is negative, the figure shown (and handed to the rank lookup) is not negative for any user, present or not |
| Ledger.ApplyCredit | src/app/dashboard/log/page.tsx:120-128 | commits exactly when the owner's account exists, else aborts with AccountNotFound. The balance grows by the record's points, a missing total counting as 0. No other field or account changes, the record is stored under its key, and redemptions are untouched. Non-negative balances stay so for non-negative points, and no lifetime figure drops |
| Ledger.ApplyRedemption | src/app/dashboard/rewards/page.tsx:79-88 | commits exactly when the account exists and its balance (missing counts as 0) covers the cost. The balance drops by the cost and stays at least 0. Only `totalPoints` of that account changes, the redemption is stored, and records are untouched |
| Ledger.ApplyValidation | src/app/admin/page.tsx:177-201 | aborts with AccountNotFound for a missing account, and with RecordNotFound for a missing record. Otherwise the stored record gets the verdict's status and the validation time, and nothing else of it changes. Rejection leaves every account as it was. Approval raises `totalPoints` and `lifetimePoints` by the snapshot's points and changes nothing else |
| Ledger.ApplyReset | src/app/dashboard/profile/page.tsx:183 | commits exactly when the account exists; `totalPoints` becomes 0, no other field and no record or redemption changes |
| Ledger.ApplyProfileUpdate | src/app/dashboard/profile/page.tsx:109-124 | commits exactly when the account exists. The username is replaced. The birthday is replaced only when one is given, else kept. Nothing else changes |
| Ledger.NewAccount | src/app/login/page.tsx:88-95 | the first-sign-in document carries the id, username and email, with both balances at 0 |
| Ledger.ApplyFirstSignIn | src/app/login/page.tsx:84-96 | an existing account leaves the ledger unchanged; otherwise exactly the fresh account is added; the account exists afterwards |
| Ledger.FirstSignInIdempotent | src/app/login/page.tsx:87-96 | a second sign-in changes nothing, whatever name, email and time it carries |
| Ledger.CreditsAddUp | src/app/dashboard/log/page.tsx:120-128 | serialised credits to one existing account all commit. The balance ends at the start plus the sum of their points. The lifetime figure and every other account stay the same |
| Ledger.StaleApprovalCreditsAgain | src/app/admin/page.tsx:177-200 | the transaction does not re-check the stored status, so two approvals from the same pending snapshot credit the points twice |
| Ledger.SecondRedemptionRefused | src/app/dashboard/rewards/page.tsx:81-86 | spending the whole balance leaves 0, and the same redemption again is refused without a write |
| Ledger.Store.Credit | src/app/dashboard/log/page.tsx:120-128 | the store commits `ApplyCredit` or, when it aborts, is left unchanged and reports the error |
| Ledger.Store.Redeem | src/app/dashboard/rewards/page.tsx:79-88 | the store commits `ApplyRedemption` or is left unchanged |
| Ledger.Store.Validate | src/app/admin/page.tsx:177-201 | the store commits `ApplyValidation` or is left unchanged |
| Ledger.Store.ResetPoints | src/app/dashboard/profile/page.tsx:183 | the store commits `ApplyReset` or is left unchanged |
| Ledger.Store.UpdateProfile | src/app/dashboard/profile/page.tsx:124 | the store commits `ApplyProfileUpdate` or is left unchanged |
| Ledger.Store.CreateIfAbsent | src/app/login/page.tsx:84-96 | the store becomes `ApplyFirstSignIn` of what it was |
| ManualLog.ValidQuantity | src/app/dashboard/log/page.tsx:60-62 | a quantity the schema accepts earns a non-negative amount in every category of the table |
| ManualLog.Round | src/app/dashboard/log/page.tsx:105 | the integer within half a unit of `x`, halves rounded up (`Math.round`) |
| ManualLog.PointsEarned | src/app/dashboard/log/page.tsx:105 | the points are within half a point of quantity × rate, and non-negative for a non-negative quantity and rate |
| ManualLog.TableRatesNonNegative | src/app/dashboard/log/page.tsx:29-62 | every category of the table earns a non-negative amount for a positive quantity |
| ManualLog.PointsMonotone | src/app/dashboard/log/page.tsx:105 | more of the same material never earns fewer points |
| ManualLog.GlassEarnsTenPerUnit | src/app/dashboard/log/page.tsx:44-50 | glass at 10 points per unit: q whole units earn exactly 10·q |
| ManualLog.KiloOfPlasticEarnsTwenty | src/app/dashboard/log/page.tsx:30-36 | 1000 g of plastic earns 20 points |
| ManualLog.LogRecord | src/app/dashboard/log/page.tsx:109-118 | the record carries the user, the category's name and unit, the quantity and the computed points, and it has no status |
| ManualLog.SubmitLog | src/app/dashboard/log/page.tsx:95-128 | a non-positive quantity or a missing user writes nothing. Otherwise the credit transaction of the record runs; on commit the computed points are reported, and on abort nothing is written. Reported points are non-negative |
| PhotoLog.ValidDescription | src/app/dashboard/recycling-chatbot/page.tsx:35-39 | every description of 10 or more characters is accepted, and none of fewer than 5, the UTF-16 length lying between one and two units per character |
| PhotoLog.Verify | src/app/dashboard/recycling-chatbot/page.tsx:137-142 | a call that throws or returns nothing gives no result; an output comes back with the flow's points override |
| PhotoLog.PhotoRecord | src/app/dashboard/recycling-chatbot/page.tsx:149-159 | a photo record has quantity -1 and unit "N/A", and carries the result's material and points, the photo and the description |
| PhotoLog.CreditedPhotoPoints | src/app/dashboard/recycling-chatbot/page.tsx:144-170 | a credited photo is worth 5, 10, 15, 20 or 75 points, whatever the prompt said |
| PhotoLog.ChatbotPage.constructor | src/app/dashboard/recycling-chatbot/page.tsx:44-47 | the page starts with no photo, no result and not submitting |
| PhotoLog.ChatbotPage.TakePicture | src/app/dashboard/recycling-chatbot/page.tsx:98-111 | the captured frame becomes the photo; nothing else changes |
| PhotoLog.ChatbotPage.ResetForm | src/app/dashboard/recycling-chatbot/page.tsx:113-118 | photo and result cleared, not submitting |
| PhotoLog.ChatbotPage.OnSubmit | src/app/dashboard/recycling-chatbot/page.tsx:120-203 | a short description, a missing photo or a missing user returns before any call or write. A failed verification shows the system error and writes nothing. An invalid result is shown and writes nothing. A valid one is shown and its credit transaction commits or leaves the store unchanged. The page ends not submitting |
| Rewards.CatalogWellFormed | src/app/dashboard/rewards/page.tsx:32-41 | every reward costs a positive amount and no two rewards share an id |
| Rewards.PreCheckRefuses | src/app/dashboard/rewards/page.tsx:61 | a refusal is one the transaction's own check would also make; a missing `totalPoints` is never refused; a present one is refused exactly when below the cost |
| Rewards.RedemptionFor | src/app/dashboard/rewards/page.tsx:69-77 | the redemption record carries the reward's id and name and deducts its required points |
| Rewards.HandleRedemption | src/app/dashboard/rewards/page.tsx:56-88 | no user or profile, or a pre-check that refuses, writes nothing. Otherwise the debit transaction commits or leaves the store unchanged. A missing `totalPoints` passes the pre-check; for a catalog reward, whose cost is positive, the transaction then refuses |
| Rewards.RedemptionNeverOverdraws | src/app/dashboard/rewards/page.tsx:79-88 | whatever the shown snapshot, a committed redemption leaves a non-negative balance lowered by the cost, and `lifetimePoints` as it was |
| Admin.CellFor | src/app/admin/page.tsx:95-121 | actions exactly for a pending record; "Aprovado" for an approved one; "Recusado" for anything else |
| Admin.AdminPanel.constructor | src/app/admin/page.tsx:133 | no validation in flight at first |
| Admin.AdminPanel.HandleValidate | src/app/admin/page.tsx:160-201 | while a validation is in flight, returns at once and writes nothing; otherwise marks the record in flight, and the transaction commits or leaves the store unchanged |
| Admin.AdminPanel.Settle | src/app/admin/page.tsx:216-218 | afterwards no validation is in flight |
| Admin.ValidationBalances | src/app/admin/page.tsx:184-199 | rejecting changes no account; approving raises both balances by exactly the record's points |
| Profile.ValidUsername | src/app/dashboard/profile/page.tsx:49-51 | every username of 3 or more characters is accepted, and none of fewer than 2 |
| Profile.PasswordIssues | src/app/dashboard/profile/page.tsx:54-61 | flags the current password exactly when it is empty, the new one exactly when it is shorter than 6 UTF-16 code units (JavaScript's `length`), and the confirmation exactly when it differs |
| Profile.PasswordFormAccepted | src/app/dashboard/profile/page.tsx:54-61 | the form is accepted if and only if the passwords match, the new one has at least 6 UTF-16 code units and the current one is given |
| Profile.PasswordErrorMessage | src/app/dashboard/profile/page.tsx:161-164 | wrong-password and invalid-credential give "A senha atual está incorreta."; any other code gives the generic message |
| Profile.DatePart | src/app/dashboard/profile/page.tsx:117 | the longest prefix without a 'T', which is followed by a 'T' when shorter than the string |
| Profile.DatePartOfTimestamp | src/app/dashboard/profile/page.tsx:116-118 | the birthday stored for `YYYY-MM-DDT…` is `YYYY-MM-DD` |
| Profile.OnProfileSubmit | src/app/dashboard/profile/page.tsx:104-145 | a username under 3 UTF-16 code units or a missing user writes nothing. A failed display-name update reports that failure and writes nothing. Otherwise success is reported whatever the un-awaited write does, and the store holds the update of the username, and of the birthday's date part when given, or is unchanged when that write aborts |
| Profile.TwoEmojiUsernameAccepted | src/app/dashboard/profile/page.tsx:50 | a username of two emoji is four code units long and so is accepted |
| Profile.HandleResetPoints | src/app/dashboard/profile/page.tsx:178-196 | a missing user writes nothing; otherwise the reset commits or leaves the store unchanged |
| Profile.ResetKeepsRecords | src/app/dashboard/profile/page.tsx:183 | after a reset the balance is 0, the lifetime figure is unchanged, and every record and redemption remains |
| Login.SignInUsername | src/app/login/page.tsx:90 | a non-empty display name is kept; a missing or empty one becomes "Usuário Google"; the result is never empty |
| Login.CheckAndCreateUserProfile | src/app/login/page.tsx:82-97 | the store becomes `ApplyFirstSignIn` of what it was, named by `SignInUsername` |
| Login.FirstSignInOpensEmptyAccount | src/app/login/page.tsx:87-96 | a first sign-in opens the account with both balances at 0 and the fallback name; a later one leaves the ledger unchanged |
| Login.LoginErrorMessage | src/app/login/page.tsx:130-137 | "Email ou senha inválidos." exactly for user-not-found, wrong-password and invalid-credential; the generic message otherwise |
| Login.LooksLikeEmail | src/app/login/page.tsx:44 | an accepted email has at least 5 characters, does not start with `@` and holds exactly one `@` |
| Login.LoginIssues | src/app/login/page.tsx:43-46 | flags the email exactly when it is not email-shaped, and the password exactly when it is empty |
| Rankings.DeclaredTable | src/app/dashboard/rankings/page.tsx:17-25 | the declared table has levels 0..7 in order, starts at 0 points and has strictly increasing thresholds |
| Rankings.DescendingPermutationUnique | src/app/dashboard/rankings/page.tsx:26 | two strictly descending orderings of the same ranks are equal, so the sort has one possible outcome |
| Rankings.SortedTable | src/app/dashboard/rankings/page.tsx:17-26 | the sorted table is strictly descending, a permutation of the declared one, and the only such permutation |
| Rankings.FirstReached | src/app/dashboard/rankings/page.tsx:29-33 | the search stops at the first rank whose threshold the points reach; every rank before it is out of reach |
| Rankings.CurrentIndex | src/app/dashboard/rankings/page.tsx:28-35 | the position of the first threshold reached, or the last position when none is |
| Rankings.CurrentRank | src/app/dashboard/rankings/page.tsx:28-35 | a rank of the table whose threshold is reached, at least as high as every threshold reached; Novato below every threshold |
| Rankings.ThresholdEarnsRank | src/app/dashboard/rankings/page.tsx:30 | exactly a rank's threshold earns that rank (inclusive lower bound) |
| Rankings.OneShortEarnsRankBelow | src/app/dashboard/rankings/page.tsx:28-35 | one point below a rank's threshold earns the rank below it |
| Rankings.AprendizAtFiveHundred | src/app/dashboard/rankings/page.tsx:28-35 | 500 points is Aprendiz and 499 is Novato |
| Rankings.FindLevel | src/app/dashboard/rankings/page.tsx:39 | a found rank is in the table with the requested level; when none is found, no rank has it |
| Rankings.NextRank | src/app/dashboard/rankings/page.tsx:37-40 | a next rank exists exactly for levels -1..6, and is the table's rank one level up |
| Rankings.NextIsHigher | src/app/dashboard/rankings/page.tsx:37-40 | the rank one level up has a higher threshold |
| Rankings.OnlyTopHasNoNext | src/app/dashboard/rankings/page.tsx:37-40 | only Lenda has no next rank |
| Rankings.Percent | src/app/dashboard/rankings/page.tsx:57 | the percentage lies in [0, 100) when the numerator lies in [0, denominator) |
| Rankings.Progress | src/app/dashboard/rankings/page.tsx:56-58 | for non-negative points the bar lies in [0, 100], and is full exactly when there is no next rank |
| Rankings.ProgressBounds | src/app/dashboard/rankings/page.tsx:52-58 | for non-negative points with a next rank: current threshold ≤ points < next threshold, the progress is in [0, 100), and the points still missing (line 82) are positive. At Lenda the progress is 100 |
| Dashboard.ToDate | src/app/dashboard/page.tsx:36-48 | an absent date gives nothing; a timestamp or an ISO string gives its instant |
| Dashboard.Combined | src/app/dashboard/page.tsx:83-86 | the records, each tagged `log` with its date, followed by the redemptions, each tagged `redemption`; a missing list counts as empty |
| Dashboard.Dated | src/app/dashboard/page.tsx:87 | keeps every dated entry as often as it occurs, and nothing else |
| Dashboard.Insert | src/app/dashboard/page.tsx:88 | inserting into a newest-first list keeps it newest first and adds exactly the one entry |
| Dashboard.SortNewestFirst | src/app/dashboard/page.tsx:88 | a newest-first permutation of its input |
| Dashboard.RecentActivity | src/app/dashboard/page.tsx:82-90 | at most 5 entries, exactly min(5, dated entries), all dated, newest first |
| Dashboard.ShownAreInputs | src/app/dashboard/page.tsx:86-89 | every entry shown occurs among the inputs, at least as often |
| Dashboard.OmittedAreOlder | src/app/dashboard/page.tsx:86-89 | if a dated input entry is left out, five entries are shown and none of them is older than it |
| Dashboard.RecentActivityIsNewestFive | src/app/dashboard/page.tsx:82-90 | the list is the five most recent dated entries of the two inputs: shown entries come from the inputs, and omitted dated ones are no newer than any shown |
| Dashboard.FromInputs | src/app/dashboard/page.tsx:83-86 | a merged entry tagged `log` is one of the records and one tagged `redemption` is one of the redemptions |
| Dashboard.EntriesKeepTheirOrigin | src/app/dashboard/page.tsx:83-89 | every entry shown carries the tag of the collection it came from |
| Aggregation.Materials | src/app/dashboard/statistics/page.tsx:61-71 | the material names in order of first occurrence, with no repetition |
| Aggregation.MaterialsOccur | src/app/dashboard/stats/page.tsx:88-91 | a name is listed if and only if some record has that material |
| Aggregation.SumMapIsSums | src/app/dashboard/statistics/page.tsx:63-66 | the dictionary built front to back has an entry exactly for the materials that occur, holding that material's sum |
| Aggregation.SumOverMaterials | src/app/dashboard/stats/page.tsx:87-94 | the per-material sums over the distinct materials add up to the sum over all records: nothing is lost or counted twice |
| Statistics.ComputeStats | src/app/dashboard/statistics/page.tsx:53-74 | missing or empty records give an empty distribution and 0 items. Otherwise there is one slice per distinct material, in order of first occurrence, holding that material's total quantity, and `totalItems` is the total quantity |
| Statistics.Entries | src/app/dashboard/statistics/page.tsx:68-71 | one slice per key, in key order, with the map's value |
| Statistics.DistributionSumsToTotal | src/app/dashboard/statistics/page.tsx:61-73 | the slice values add up to `totalItems` |
| Stats.Day | src/app/dashboard/stats/page.tsx:73 | the whole UTC day since the epoch whose 24-hour span contains the instant |
| Stats.OnDay | src/app/dashboard/stats/page.tsx:72-76 | a record counts towards a day exactly when it carries a server timestamp falling within that day's span |
| Stats.ChartData | src/app/dashboard/stats/page.tsx:61-83 | seven bars, oldest first, for today and the six days before. Each bar holds the quantity of the timestamped records dated that day |
| Stats.DaysSumIsWindow | src/app/dashboard/stats/page.tsx:70-80 | the per-day totals of a window add up to the quantity of the records inside the window |
| Stats.ChartCountsTheWeek | src/app/dashboard/stats/page.tsx:61-83 | the bars add up to the quantity of exactly the timestamped records of the last seven days |
| Stats.TallyIsSums | src/app/dashboard/stats/page.tsx:88-94 | the object built front to back has an entry exactly for the materials that occur, holding their quantity and points sums |
| Stats.MaterialTotals | src/app/dashboard/stats/page.tsx:85-97 | one row per distinct material, in order of first occurrence, with the sums of that material's quantities and points |
| Stats.Rows | src/app/dashboard/stats/page.tsx:96 | one row per key, in key order, with the object's entry |
| Stats.MaterialPointsAddUp | src/app/dashboard/stats/page.tsx:87-94 | the rows' points add up to the points of all the records |

## Left out

- Firestore I/O: reads, writes, listeners, queries (`orderBy`, `limit`, `where`) and the optimistic retry of `runTransaction`. Each transaction body is one atomic method over in-memory maps, and a query's result is an input sequence. Concurrency is not modelled; `CreditsAddUp` states the serialised outcome.
- Handler guards against a missing Firestore instance (`!firestore`) are not modelled. A missing user is modelled.
- The calls to the identity provider (`updateProfile`, sign-in, re-authentication, `updatePassword`) are parameters: their outcome for the profile handler, and their error code for the message functions.
- The verification prompt and the chat flow are left out. The prompt's answer is an arbitrary input, and only the points override after it is modelled.
- PhotoLog.ChatbotPage.OnSubmit: the page reads `pointsAwarded`, `materialType` and `reason`, but the flow's schema names these fields `points`, `material` and `comment`. The model credits the result's `points` and records its `material`; the arithmetic on the missing field is not modelled.
- PhotoLog.ChatbotPage.OnSubmit: the credit transaction is started without being awaited, and the success message is shown whatever it does. The model reports the transaction's own outcome.
- JavaScript numbers are exact reals here, so floating-point rounding of the rates (0.02, 0.015, 0.075), of the sums and of the percentage is not modelled. Rounding follows `Math.round` on exact values.
- Dates are milliseconds since the epoch, and days are whole days since the epoch in UTC.
  - Not modelled: time zones, `startOfDay` in local time, and the `'dd/MM'` labels.
  - Stats.ChartData keys its buckets by day number. The page keys them by `'dd/MM'`, so a record dated the same day and month a year earlier would also fall into a bucket. The date filter of the page's query makes that case unreachable there.
- An ISO string that does not parse (an invalid date) is not modelled; every ISO string carries its instant.
- Dashboard.ToDate: the page's `!date` test and its `date.seconds` test are not modelled. So an empty string, and a plain object whose `seconds` is 0, are treated as dated.
- Dashboard.SortNewestFirst is a stable sort, as the engine's sort is. Its contract states ordering and permutation, not stability.
- Statistics.Entries and Stats.Rows list keys in insertion order. Objects list integer-like keys first and `Map` keeps insertion order; material names are never integer-like.
- Login.LoginIssues: the email check is an approximation of the schema library's email pattern (a non-empty local part, one `@`, and a dot inside the domain).
- Signup, the leaderboard, password reset, the admin layout and gating, the chat widget, the camera, toasts, icons, descriptions and images are not part of this model.
- Rankings.ProgressBounds requires non-negative points. Every ledger transition preserves non-negative balances for non-negative credited points, and `Ledger.ShownPointsNonNegative` carries that to the figure shown. For a negative balance the page's bar would be negative.
