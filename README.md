# Loyalty and discount platform: a verified model

This project models the rules at the centre of a loyalty and discount
platform. Businesses publish packages: a blanket discount, a discount on
one product, an elite gift and VIP experiences. Customers collect points at
a business, move up VIP tiers and redeem a one-time gift. Businesses also
post dated percentage discounts that customers rate and comment on. The
backend is a Django REST service; the frontend is a React application.

The model covers these parts:

- **Loyalty ledger** (`LoyaltyModels`, `LoyaltySerializers`, `LoyaltyViews`):
  the per-(customer, business) balance and its VIP tier, the single-use
  elite gift, transaction pricing and points, approval and rejection, the
  transaction-creation checks and the `get_business_by_code` projection.
- **Package lifecycle** (`PackageModels`, `PackageSignals`,
  `ActivatePendingPackages`, `PackageViews`, `PackageSerializers`):
  - the post-save activation handler;
  - the nightly batch that retires expired packages and activates the
    next ones, modelled in place on an array;
  - the admin approve, reject and toggle actions;
  - the create and update serializer and the list getters.
- **Discounts, elite discounts and offers** (`DiscountModels`,
  `DiscountSerializers`, `DiscountViews`, `EliteModels`, `OffersModels`):
  date and range validators, soft delete, the uniqueness of scores and
  comments, the rating upsert, commenting, and the business dashboard.
- **One-time passwords** (`SmsService`): code generation and the
  single-use verification cache.
- **Client-side rules**:
  - `InvoicePaymentModal`: amount input and totals;
  - `CustomerPointsCard`: the membership-tier card;
  - `ProfileDatePicker`: the Persian date picker;
  - `TopBusinessSlider`: the category slider;
  - `Explore`: package search and sort;
  - `DiscountManagement`: discount statistics;
  - `ProtectedRoute` and `ProfileGuard`: the route guards.

Each source file is one module. `Common` holds the shared pieces:

- `Option`, the user roles and the HTTP statuses;
- counting and filtering;
- a descending sort;
- uniqueness over a key.

Amounts are exact reals and dates are integers. The clock and random draws
are parameters; the one-time-code cache is the map field of the
`OtpCache` class, and the outcome of SMS delivery is a parameter.

## Model

| member | source | states |
|---|---|---|
| LoyaltyModels.VipFor | backend/loyalty/models.py:74-86 | the tier is vip_plus exactly from 7000 points, vip exactly from 3000 to 6999, none below 3000 |
| LoyaltyModels.VipMonotone | backend/loyalty/models.py:74-86 | more points never give a lower tier |
| LoyaltyModels.CustomerLoyalty.constructor | backend/loyalty/models.py:15-69 | a new row has 0 points, no tier, the gift neither reached nor used |
| LoyaltyModels.CustomerLoyalty.UpdateVipStatus | backend/loyalty/models.py:74-86 | the stored tier becomes the tier of the balance |
| LoyaltyModels.CustomerLoyalty.AddPoints | backend/loyalty/models.py:104-110 | the balance grows by exactly n and the tier matches the new balance |
| LoyaltyModels.CustomerLoyalty.UseEliteGift | backend/loyalty/models.py:112-127 | refused without change when the target is not reached or the gift is used; otherwise marks it used and stamps the date |
| LoyaltyModels.UseEliteGiftTwice | backend/loyalty/models.py:112-127 | a second use always fails, whatever the first returned |
| LoyaltyModels.LoyaltyTable.GetOrCreate | backend/loyalty/serializers.py:89-92 | returns the existing row of the pair or adds exactly one new row |
| LoyaltyModels.GetOrCreateTwice | backend/loyalty/serializers.py:89-92 | two get-or-creates of one pair return the same row and add at most one key |
| LoyaltyModels.CalculateDiscount | backend/loyalty/models.py:245-265 | (0, 0) without a package or blanket discount; else the blanket share of the amount, and the special share of the special amount exactly when flagged and the package has a specific discount, 0 otherwise |
| LoyaltyModels.CalculateFinalAmount | backend/loyalty/models.py:267-283 | the amount after both discounts, special part only when flagged, floored at 0 |
| LoyaltyModels.CalculatePoints | backend/loyalty/models.py:285-290 | one point per whole 10,000 of the final amount, never negative |
| LoyaltyModels.FinalAmountWithinGross | backend/loyalty/models.py:245-283 | with valid percentages, the discounts lie within their amounts and the final amount is at most the gross |
| LoyaltyModels.Transaction.constructor | backend/loyalty/models.py:129-240 | a new transaction is unsaved, pending, earns 0 points and has no computed amounts |
| LoyaltyModels.Transaction.Save | backend/loyalty/models.py:314-324 | the amounts are computed on the first save only; later saves keep them |
| LoyaltyModels.Transaction.Approve | backend/loyalty/models.py:292-305 | a no-op when already approved; else approves, sets the points and credits exactly them to the ledger |
| LoyaltyModels.Transaction.Reject | backend/loyalty/models.py:307-312 | marks the transaction rejected and never touches points; a saved transaction keeps its computed amounts |
| LoyaltyModels.ApproveTwice | backend/loyalty/models.py:292-305 | approving a pending saved transaction credits exactly its points, and a repeat approval credits nothing more |
| LoyaltySerializers.Validate | backend/loyalty/serializers.py:44-71 | accepted exactly when the business exists, the amounts are whole, at most twelve digits and not negative, the trimmed title fits 255 characters, and with the special flag a non-empty trimmed title and a non-zero special amount are sent; field errors come first |
| LoyaltySerializers.CleanedTitle | backend/loyalty/models.py:186-191 | the title trimmed as the `CharField` does it, null kept null; no character is added |
| LoyaltySerializers.BlankTitleRefused | backend/loyalty/serializers.py:61-65 | with the special flag, a title of blanks alone is refused as missing |
| LoyaltySerializers.FractionalAmountRefused | backend/loyalty/models.py:167-172 | an amount with a fractional part is refused (`decimal_places=0`) |
| LoyaltySerializers.ActivePackageOf | backend/loyalty/serializers.py:84-86 | an active approved package of the business with the least id, None exactly when it has none |
| LoyaltySerializers.CallKeywordsDistinct | backend/loyalty/serializers.py:95-101 | keyword binding succeeds exactly when no name is passed twice |
| LoyaltySerializers.CreateCallAlwaysClashes | backend/loyalty/serializers.py:95-101 | the call as written passes `business` twice for every payload |
| LoyaltySerializers.CorrectedCallBinds | backend/loyalty/serializers.py:95-101 | without `business` in the unpacked dictionary every name binds once |
| LoyaltySerializers.NewTransaction | backend/loyalty/serializers.py:95-101 | the new transaction references the active package and the loyalty row, copies the client's fields with the title trimmed, and is priced by CalculateDiscount |
| LoyaltySerializers.CreateAsWritten | backend/loyalty/serializers.py:73-104 | no customer profile or no active package refuses before the ledger is touched; otherwise the row is get-or-created and the call fails exactly when a keyword is passed twice |
| LoyaltySerializers.Create | backend/loyalty/serializers.py:73-104 | corrected: the same checks in order, then a transaction on the active package and the get-or-created row |
| LoyaltyViews.RoleScope | backend/loyalty/views.py:20-49 | customers see their rows, businesses theirs, staff all, other roles none |
| LoyaltyViews.GetTransaction | backend/loyalty/views.py:39-49 | the row with the key among those the role may see |
| LoyaltyViews.ForeignTransactionNotFound | backend/loyalty/views.py:79-92 | a business user never reaches another business's transaction |
| LoyaltyViews.CreateTransaction | backend/loyalty/views.py:56-72 | non-customers 403, invalid data 400, no customer profile 500, no active package 400, all without change; past those checks always 500 with no transaction, the loyalty row left get-or-created |
| LoyaltyViews.CreateTransactionCorrected | backend/loyalty/views.py:56-72 | corrected: the same guards, else 201 with a pending transaction on the active package and the get-or-created row; nothing changes on refusal |
| LoyaltyViews.ApproveTransaction | backend/loyalty/views.py:75-103 | a non-business role 403, a business user without profile 500, a key outside the business's own transactions 404, all unchanged; never 403 for a business user; else the business's own transaction is approved, with its points credited once |
| LoyaltyViews.OwnRowFound | backend/loyalty/views.py:85-92 | the transaction `get_object` finds for a business user is the business's own, so the ownership check never refuses |
| LoyaltyViews.RejectTransaction | backend/loyalty/views.py:105-135 | the same 403, 500 and 404 refusals, unchanged, and never 403 for a business user; else the business's own transaction is rejected with its points and the ledger untouched |
| LoyaltyViews.ParseInt | backend/loyalty/views.py:151-159 | `int()` of a string: a string without a digit never parses |
| Common.StripLeft | backend/loyalty/views.py:151-159 | the result starts with no blank, and text starting with no blank is kept |
| Common.StripRight | backend/loyalty/views.py:151-159 | the result ends with no blank, and text ending with no blank is kept |
| Common.StrippedIsInfix | backend/loyalty/views.py:151-159 | stripping adds no character |
| LoyaltyViews.ParseDecimal | backend/loyalty/views.py:151-159 | every integer's decimal spelling parses back to it |
| LoyaltyViews.DescribeGift | backend/loyalty/views.py:219-225 | the amount when non-zero, else the count when non-zero, else the gift text |
| LoyaltyViews.CleanGiftHasFigure | backend/loyalty/views.py:219-225 | a gift accepted by EliteGift.clean is described by its amount or count |
| LoyaltyViews.Project | backend/loyalty/views.py:160-225 | package fields are empty without a package and filled only for present sub-entities; the three flags follow the ledger |
| LoyaltyViews.FlagsFollowBalance | backend/loyalty/views.py:199-201 | for a consistent ledger the VIP flags depend on the balance alone |
| LoyaltyViews.WithCode | backend/loyalty/views.py:163 | exactly the businesses whose `unique_code` is the code |
| LoyaltyViews.GetBusinessByCode | backend/loyalty/views.py:137-228 | non-customer 403, missing, empty or non-integer code 400, no business 404, several or no profile 500, else 200 with the projection of the get-or-created row |
| PackageModels.CleanEliteGift | backend/packages/models.py:130-136 | refused exactly when amount and count are both empty; both set passes |
| PackageModels.NewPackage | backend/packages/models.py:53-62 | a new package is inactive, has no sub-entities and satisfies every field validator |
| PackageModels.Activated | backend/packages/signals.py:21-38 | activation sets `is_active` and changes nothing else |
| PackageModels.Deactivated | backend/packages/signals.py:21-38 | deactivation clears `is_active` and changes nothing else |
| PackageModels.SecondCommentRefused | backend/packages/models.py:17-37 | a second comment by a user on the same object is refused by the unique key |
| PackageModels.SecondLikeRefused | backend/packages/models.py:39-46 | a second like of a comment by the same user is refused by the unique key |
| PackageModels.PackageInstance.ActivatePackage | backend/packages/signals.py:21-28 | the row becomes its activated form |
| PackageModels.PackageInstance.DeactivatePackage | backend/packages/signals.py:32-38 | the row becomes its deactivated form |
| PackageSignals.Decision | backend/packages/signals.py:21-41 | activate exactly when approved, complete, allowed and inactive; deactivate exactly when approved, complete, not allowed and active; else nothing |
| PackageSignals.AfterSave | backend/packages/signals.py:8-41 | only `is_active` may change; guarded or ineligible rows are unchanged; otherwise the flag equals the permission |
| PackageSignals.DecisionReachesTarget | backend/packages/signals.py:21-41 | after the chosen call an eligible package is active exactly when allowed |
| PackageSignals.DecisionIdempotent | backend/packages/signals.py:21-41 | a second save with the same answer calls nothing |
| PackageSignals.HandlePackageActivation | backend/packages/signals.py:8-41 | a sentinel or override returns at once unchanged; else it runs the decided primitive, ending as AfterSave unless the primitive raises; the sentinel is restored on every exit |
| PackageViews.Queryset | backend/packages/views.py:23-38 | business users see their own packages (none without a profile), staff all, others none |
| PackageViews.GetObject | backend/packages/views.py:23-38 | the package with the key among those visible |
| PackageViews.ForeignPackageNotFound | backend/packages/views.py:116-131 | a business user never reaches another business's package |
| PackageViews.ToggleTwice | backend/packages/views.py:138-139 | toggling twice restores the package |
| PackageViews.ToggleActive | backend/packages/views.py:116-145 | 404 exactly when `get_object` finds no package, which is always for customers and for business users without a profile, unchanged; never 400 or 403; else `is_active` is negated, whatever the status, and saved through the post-save handler, and only staff or the owning business get that far |
| PackageViews.ToggleUndoneBySignal | backend/packages/views.py:138-141 | for an approved complete package the save's handler sets the flag back to the permission |
| PackageViews.ToggleIsNegation | backend/packages/views.py:138-141 | when the handler does not act, the toggle is a plain negation |
| PackageViews.Approve | backend/packages/views.py:148-166 | non-staff 403 unchanged; else the status becomes approved from any status and the post-save handler runs |
| PackageViews.ApproveActivates | backend/packages/views.py:158-160 | an approved complete package that may be activated ends active |
| PackageViews.Reject | backend/packages/views.py:169-188 | non-staff 403 unchanged; else the status becomes rejected and nothing else changes |
| PackageViews.RejectKeepsActiveFlag | backend/packages/views.py:180-181 | rejecting an active package leaves it active |
| PackageSerializers.NewEliteGift | backend/packages/serializers.py:297-322 | a created gift takes the payload's fields; a missing amount or count is null, a missing gift text empty, a missing score the default |
| PackageSerializers.NewDiscountAll | backend/packages/serializers.py:297-322 | a created blanket discount takes the sent percentage, and the default score when none is sent |
| PackageSerializers.NewSpecificDiscount | backend/packages/serializers.py:297-322 | a created product discount takes the sent percentage; a missing title or description is null, a missing score the default |
| PackageSerializers.NewExperience | backend/packages/serializers.py:297-322 | a created experience takes the sent category and tier, and the default score when none is sent |
| PackageSerializers.MergeDiscountAll | backend/packages/serializers.py:336-350 | every sent key overwrites its field and the rest are kept |
| PackageSerializers.MergeSpecificDiscount | backend/packages/serializers.py:336-350 | every sent key overwrites its field and the rest are kept |
| PackageSerializers.MergeEliteGift | backend/packages/serializers.py:355-372 | a non-null amount sets it and clears count; else a non-null count sets it and clears amount; else keys are copied; gift kept when absent |
| PackageSerializers.MergeEliteGiftExclusive | backend/packages/serializers.py:356-370 | a payload with a non-null amount or count leaves exactly one of them set |
| PackageSerializers.MergeEliteGiftIdempotent | backend/packages/serializers.py:356-370 | sending the same payload twice equals sending it once |
| PackageSerializers.MergeEliteGiftCanBypassClean | backend/packages/serializers.py:355-372 | the update can store a gift that EliteGift.clean refuses |
| PackageSerializers.SetFields | backend/packages/serializers.py:324-334 | the package columns sent overwrite the row; sub-entities are kept |
| PackageSerializers.Create | backend/packages/serializers.py:297-322 | one sub-entity per truthy payload and one experience per entry; the save runs the post-save handler, so an approved complete package is active exactly when it may be activated now, and any other keeps the sent flag |
| PackageSerializers.CreateExperiences | backend/packages/serializers.py:314-320 | one experience per payload entry, in order |
| PackageSerializers.Update | backend/packages/serializers.py:324-390 | columns set and saved through the handler, then sub-objects merged and experiences replaced |
| PackageSerializers.UpdateSubObjects | backend/packages/serializers.py:336-374 | each payload sent merges into the existing sub-object or creates one; missing or empty leaves it |
| PackageSerializers.ReplaceExperiences | backend/packages/serializers.py:376-386 | the experiences become exactly the payload list |
| PackageSerializers.AnyOfType | backend/packages/serializers.py:188-194 | true exactly when some experience has the type |
| PackageSerializers.DaysRemaining | backend/packages/serializers.py:196-205 | None unless ending and active; else the days left, 0 once past, never negative |
| PackageSerializers.DaysRemainingDecreases | backend/packages/serializers.py:196-205 | the count never grows as the day advances |
| PackageSerializers.ListFields | backend/packages/serializers.py:128-205 | getters are None without their sub-entity; the VIP flags and count follow the experiences |
| ActivatePendingPackages.EarliestPending | backend/packages/management/commands/activate_pending_packages.py:31-36 | a pending row of the business, when one is found |
| ActivatePendingPackages.EarliestPendingIsEarliest | backend/packages/management/commands/activate_pending_packages.py:31-36 | the row found has the least `created_at`, first on ties; None exactly when the business has no pending row |
| ActivatePendingPackages.ExpiredActiveIndices | backend/packages/management/commands/activate_pending_packages.py:17-20 | exactly the active approved rows with `end_date` up to today |
| ActivatePendingPackages.WaitingBusinesses | backend/packages/management/commands/activate_pending_packages.py:56-62 | each business with a waiting package, once |
| ActivatePendingPackages.Rotate | backend/packages/management/commands/activate_pending_packages.py:25-53 | the reference step: deactivate, then activate the earliest pending row of the business; the table keeps its length and at most one activation is counted |
| ActivatePendingPackages.Pass1 | backend/packages/management/commands/activate_pending_packages.py:17-53 | the reference first pass, one step per expired row of the snapshot; the table keeps its length |
| ActivatePendingPackages.Recheck | backend/packages/management/commands/activate_pending_packages.py:88-117 | the reference re-check of a business's active rows in order; the table keeps its length |
| ActivatePendingPackages.Visit | backend/packages/management/commands/activate_pending_packages.py:64-117 | the reference iteration of the second pass for one business; the table keeps its length |
| ActivatePendingPackages.Pass2 | backend/packages/management/commands/activate_pending_packages.py:56-117 | the reference second pass over the snapshot of businesses; the table keeps its length |
| ActivatePendingPackages.Handle | backend/packages/management/commands/activate_pending_packages.py:9-124 | the reference run: first pass, second pass, then the summary line; the table keeps its length, and Run, HandleCountsActivations and HandleOnlyTogglesActive are proved about it |
| ActivatePendingPackages.RotateAt | backend/packages/management/commands/activate_pending_packages.py:25-53 | in place, equals the deactivate-then-activate-next step |
| ActivatePendingPackages.FirstPass | backend/packages/management/commands/activate_pending_packages.py:17-53 | in place, equals the first pass over the snapshot of expired rows |
| ActivatePendingPackages.VisitAt | backend/packages/management/commands/activate_pending_packages.py:64-117 | in place, equals one iteration of the second pass |
| ActivatePendingPackages.ActiveIndices | backend/packages/management/commands/activate_pending_packages.py:64-68 | exactly the positions of the business's active approved rows |
| ActivatePendingPackages.ActivateEarliestAt | backend/packages/management/commands/activate_pending_packages.py:70-87 | in place, for a business without an active row, equals the second pass's visit: its earliest pending row activated and counted, or nothing |
| ActivatePendingPackages.RecheckAt | backend/packages/management/commands/activate_pending_packages.py:88-117 | in place, equals re-checking every active row of the business in order |
| ActivatePendingPackages.RecheckOneAt | backend/packages/management/commands/activate_pending_packages.py:92-117 | in place, an expired active row is rotated out and a live one is left alone |
| ActivatePendingPackages.Run | backend/packages/management/commands/activate_pending_packages.py:9-124 | the array ends as the run's table; count and log are the run's |
| ActivatePendingPackages.HandleCountsActivations | backend/packages/management/commands/activate_pending_packages.py:119-124 | `activated_count` equals the activations logged and the closing line reports it, or that nothing was activated |
| ActivatePendingPackages.HandleOnlyTogglesActive | backend/packages/management/commands/activate_pending_packages.py:9-124 | the run only flips `is_active` flags |
| ActivatePendingPackages.ExpiredAreDeactivated | backend/packages/management/commands/activate_pending_packages.py:17-25 | every row active, approved and expired at the start is logged as deactivated |
| ActivatePendingPackages.VisitWithoutActive | backend/packages/management/commands/activate_pending_packages.py:56-86 | a business with no active package gets exactly its earliest pending one activated |
| ActivatePendingPackages.StartDateIrrelevant | backend/packages/management/commands/activate_pending_packages.py:31-36 | two tables differing only in start dates run alike |
| ActivatePendingPackages.AsWrittenReactivatesExpired | backend/packages/management/commands/activate_pending_packages.py:25-41 | a lone expired package is deactivated, then picked as its own successor and left active |
| ActivatePendingPackages.SkipExpiredLeavesNoExpiredActive | backend/packages/management/commands/activate_pending_packages.py:31-36 | with expired rows excluded from the pending query, no expired approved row ends active |
| ActivatePendingPackages.SkipExpiredRetiresExpired | backend/packages/management/commands/activate_pending_packages.py:25-41 | with expired rows excluded from the pending query, the lone expired package ends inactive and nothing is counted |
| DiscountModels.Clean | backend/discounts/models.py:34-36 | refused exactly when the end is before the start; equal dates pass |
| DiscountModels.DiscountDb.DeleteDiscount | backend/discounts/models.py:38-40 | soft delete: only that row's `is_deleted` flag is set, and every declared constraint still holds |
| DiscountModels.DiscountDb.DeleteComment | backend/discounts/models.py:70-72 | soft delete of a comment: the row and its unique (discount, user) key stay |
| DiscountSerializers.ScoresOf | backend/discounts/serializers.py:27-31 | one value per score row of the discount, each taken from such a row |
| DiscountSerializers.AverageScore | backend/discounts/serializers.py:27-31 | 0 without scores, else the mean |
| DiscountSerializers.AverageWithinScoreRange | backend/discounts/serializers.py:27-31 | scores in 1 to 5 average within 1 to 5 |
| DiscountSerializers.TimeRemaining | backend/discounts/serializers.py:40-48 | 0 once ended or for an empty window, 100 before the start, else the remaining share of the window; always within 0 to 100 |
| DiscountSerializers.ActiveHasTimeLeft | backend/discounts/serializers.py:36-48 | an active discount before its end has time left; one past its end is neither active nor has time left |
| DiscountSerializers.UserScore | backend/discounts/serializers.py:64-73 | None without a score by the user, else a score of that user |
| DiscountSerializers.UserScoreIsTheRow | backend/discounts/serializers.py:64-73 | under the unique key, the score found is the user's row |
| DiscountSerializers.UserComment | backend/discounts/serializers.py:75-84 | the user's live comment, or None |
| DiscountSerializers.ValidateUpdate | backend/discounts/serializers.py:86-92 | refused exactly when both dates are sent and end is not after start |
| DiscountSerializers.ValidateCreate | backend/discounts/serializers.py:100-105 | refused exactly when end is not after start |
| DiscountSerializers.ValidatorsStricterThanClean | backend/discounts/serializers.py:86-105 | whatever the validators accept the model's clean accepts, and equal dates show the converse fails |
| DiscountSerializers.PartialUpdateSkipsDateCheck | backend/discounts/serializers.py:86-92 | a partial update with one date passes whatever it is |
| DiscountSerializers.TotalComments | backend/discounts/serializers.py:181-182 | the live comments of the discount are its comments less the deleted ones |
| DiscountViews.Queryset | backend/discounts/views.py:52-70 | exactly the live discounts a user may see (a business its own, others the running ones), newest first, a permutation of the filtered list |
| DiscountViews.DeletedNeverListed | backend/discounts/views.py:52-70 | a deleted discount is never listed |
| DiscountViews.FindDiscount | backend/discounts/views.py:52-70 | the discount with the key in the queryset, or None |
| DiscountViews.Destroy | backend/discounts/views.py:79-82 | not visible 404, another business's discount 403, both unchanged; else that row is soft-deleted with 204 |
| DiscountViews.Upsert | backend/discounts/views.py:93-100 | the new score is present, other pairs kept, one row per pair, at most one row added |
| DiscountViews.RateLastWins | backend/discounts/views.py:93-100 | after two ratings of one pair, the pair's row holds the last value |
| DiscountViews.ActionGate | backend/discounts/views.py:72-88 | as written: 404 exactly when the discount is unreachable, 500 exactly when it is reachable and the caller has no customer profile, else the action goes on |
| DiscountViews.ActionGateCorrected | backend/discounts/views.py:28-38 | corrected: 403 exactly when the caller has no customer profile, 404 for a customer and an unreachable discount; going on implies `can_comment` |
| DiscountViews.PermissionClassIgnored | backend/discounts/views.py:72-77 | as written, a caller without a customer profile never gets the 403 the permission class meant |
| DiscountViews.GatesAgreeForCustomers | backend/discounts/views.py:72-88 | the two gates agree exactly for callers with a customer profile |
| DiscountViews.Rate | backend/discounts/views.py:84-103 | never 403: unknown discount 404, then no customer profile 500, then a missing or out-of-range score 400, all unchanged; else the upsert |
| DiscountViews.SaveScore | backend/discounts/views.py:90-103 | a missing or out-of-range score is a 400 and changes nothing; else the customer's score row is upserted and the constraints kept |
| DiscountViews.CommentAsWritten | backend/discounts/views.py:114-131 | a live comment or an empty (stripped) text refuses with 400; the insert fails with 500 exactly when a deleted row holds the key |
| DiscountViews.CommentAfterDeleteFails | backend/discounts/views.py:119-129 | after deleting their comment a customer cannot comment again |
| DiscountViews.Comment | backend/discounts/views.py:114-131 | corrected: a live comment or an empty (stripped) text refuses; a deleted one is revived with the new text; never an integrity error |
| Common.Strip | backend/discounts/serializers.py:129-136 | the `comment` field's trimming: keeps only characters of the input |
| Common.StripBlank | backend/discounts/serializers.py:129-136 | a text strips to empty exactly when it is all whitespace |
| DiscountViews.CommentNeverIntegrityError | backend/discounts/views.py:114-131 | the corrected comment keeps the unique key and never fails with 500 |
| DiscountViews.PostComment | backend/discounts/views.py:113-131 | never 403: unknown discount 404, then no customer profile 500, unchanged; else the corrected comment on the stripped text, so a blank text is never created |
| DiscountViews.Recent | backend/discounts/views.py:172 | of the business's live discounts, newest first, at most five |
| DiscountViews.RecentIsTheNewest | backend/discounts/views.py:172 | five of them, or all when fewer, and no live discount left out is newer than one listed |
| DiscountViews.DashboardSummary | backend/discounts/views.py:147-185 | non-business 403, no profile 400; else the counts of live, running and expired own discounts, running plus expired within the total, and the five newest live ones (all when fewer) newest first |
| EliteModels.Clean | backend/elite/models.py:51-58 | refuses an end before a start when both are set, and a discount with neither purchase condition |
| EliteModels.CleanDateRule | backend/elite/models.py:53-54 | with a purchase count, missing dates or equal dates pass |
| EliteModels.EitherConditionSuffices | backend/elite/models.py:57-58 | either non-zero purchase condition alone passes, and zero for both is refused |
| EliteModels.EliteDb.DeleteDiscount | backend/elite/models.py:60-62 | soft delete of the discount |
| EliteModels.EliteDb.DeleteComment | backend/elite/models.py:93-95 | soft delete of the comment |
| EliteModels.EliteDb.AddScore | backend/elite/models.py:66-80 | a score out of 1 to 5 (the validators) or a second score of a pair (the unique key) is refused unchanged; else added |
| EliteModels.EliteDb.AddComment | backend/elite/models.py:82-91 | a second comment of a pair is refused unchanged; else added |
| OffersModels.CleanDiscount | backend/offers/models.py:33-35 | refused exactly when the end is before the start |
| OffersModels.GiftClean | backend/offers/models.py:57-71 | date order when both are set; an amount gift needs an amount and clears the quantity; a quantity gift the reverse |
| OffersModels.GiftCleanIdempotent | backend/offers/models.py:57-71 | cleaning a cleaned gift changes nothing |
| OffersModels.AmountGiftNeverStored | backend/offers/models.py:45-71 | as written, no cleaned amount gift satisfies the NOT NULL quantity column |
| OffersModels.CleanedGiftStorable | backend/offers/models.py:57-71 | with a nullable quantity every cleaned gift with a non-negative quantity can be stored |
| OffersModels.Gift.Clean | backend/offers/models.py:57-71 | the instance's fields become the cleaned ones, or stay unchanged when refused |
| SmsService.GenerateOtp | backend/accounts/sms_service.py:9-11 | six digits that read back as the draw in 100000 to 999999 |
| SmsService.OtpKey | backend/accounts/sms_service.py:15 | the key is a four-character prefix followed by the phone |
| SmsService.OtpKeyInjective | backend/accounts/sms_service.py:13-17 | different phones get different cache keys |
| SmsService.Lookup | backend/accounts/sms_service.py:21-22 | a code is found exactly when the phone's key is stored, and it is the stored value |
| SmsService.Store | backend/accounts/sms_service.py:13-17 | the phone's code becomes the new one; other phones are unchanged |
| SmsService.StoreOverwrites | backend/accounts/sms_service.py:13-17 | a second store replaces the first |
| SmsService.Verify | backend/accounts/sms_service.py:19-30 | true exactly when a stored code equals the input; success deletes it, failure keeps the cache |
| SmsService.StoredCodeVerifiesOnce | backend/accounts/sms_service.py:19-30 | a stored code verifies once and then fails |
| SmsService.WrongCodeKeepsEntry | backend/accounts/sms_service.py:19-30 | a wrong code leaves the stored one usable |
| SmsService.OtpCache.StoreOtp | backend/accounts/sms_service.py:13-17 | the cache becomes the stored map |
| SmsService.OtpCache.VerifyOtp | backend/accounts/sms_service.py:19-30 | result and new cache are those of Verify |
| SmsService.OtpCache.VerifyOtpReply | backend/accounts/sms_service.py:87-104 | the same verification, its result as the `success` flag |
| SmsService.OtpCache.SendActivationSms | backend/accounts/sms_service.py:57-75 | the code is stored before delivery and stays stored when sending fails |
| SmsService.SentCodeVerifies | backend/accounts/sms_service.py:57-75 | the sent code verifies whatever the delivery did |
| InvoicePaymentModal.StripCommas | frontend/src/components/scanner/InvoicePaymentModal.tsx:18-20 | no comma is left, no character is added, and a comma-free string is kept as it is |
| InvoicePaymentModal.StripCommasAppend | frontend/src/components/scanner/InvoicePaymentModal.tsx:18-20 | removing commas distributes over concatenation |
| InvoicePaymentModal.SkipSpace | frontend/src/components/scanner/InvoicePaymentModal.tsx:18-20 | a suffix of the input that does not start with a blank |
| InvoicePaymentModal.LeadingDigits | frontend/src/components/scanner/InvoicePaymentModal.tsx:18-20 | the longest prefix made of digits only |
| InvoicePaymentModal.JsParseInt | frontend/src/components/scanner/InvoicePaymentModal.tsx:18-20 | `parseInt(s, 10)`: None exactly when no digit follows the blanks and sign; else the leading digits' value |
| InvoicePaymentModal.ParseNumber | frontend/src/components/scanner/InvoicePaymentModal.tsx:18-20 | the number `parseInt` reads once the commas are gone, and 0 when it reads NaN |
| InvoicePaymentModal.ParseNumberZero | frontend/src/components/scanner/InvoicePaymentModal.tsx:18-20 | a string without digits, or one `parseInt` refuses once the commas are dropped, reads as 0 |
| InvoicePaymentModal.ParseNumberDecimal | frontend/src/components/scanner/InvoicePaymentModal.tsx:18-20 | a plain decimal numeral reads back as its number |
| InvoicePaymentModal.FormatFa | frontend/src/components/scanner/InvoicePaymentModal.tsx:12-15 | Persian-digit formatting: no ASCII digit is left |
| InvoicePaymentModal.PersianDigit | frontend/src/components/scanner/InvoicePaymentModal.tsx:12-15 | each ASCII digit maps into the Persian digit block U+06F0 to U+06F9 |
| InvoicePaymentModal.Grouped | frontend/src/components/scanner/InvoicePaymentModal.tsx:12-15 | grouping changes nothing but commas |
| InvoicePaymentModal.FormatFaReadsZero | frontend/src/components/scanner/InvoicePaymentModal.tsx:12-20 | a formatted amount parses as 0 |
| InvoicePaymentModal.FormatGrouped | frontend/src/components/scanner/InvoicePaymentModal.tsx:12-15 | comma-grouped ASCII formatting that parses back to the amount |
| InvoicePaymentModal.AcceptTyped | frontend/src/components/scanner/InvoicePaymentModal.tsx:67-79 | a keystroke is accepted exactly when the text without commas is all digits |
| InvoicePaymentModal.AfterDiscount | frontend/src/components/scanner/InvoicePaymentModal.tsx:42-61 | the amount less its percentage when positive with a percentage; else unchanged |
| InvoicePaymentModal.DiscountWithinAmount | frontend/src/components/scanner/InvoicePaymentModal.tsx:42-61 | a non-negative amount less a percentage in 0 to 100 lies between 0 and the amount |
| InvoicePaymentModal.Submit | frontend/src/components/scanner/InvoicePaymentModal.tsx:81-103 | refused when the main amount is not positive, or when the special amount is on and not positive; else the payload, whose title is the specific discount's title, sent only with the special discount and only when not empty |
| InvoicePaymentModal.TypedAmountNeverSubmits | frontend/src/components/scanner/InvoicePaymentModal.tsx:67-90 | as written, any amount typed into the formatted field is refused |
| InvoicePaymentModal.TypedAmountSubmits | frontend/src/components/scanner/InvoicePaymentModal.tsx:67-90 | with ASCII grouping, a positive typed amount is submitted |
| InvoicePaymentModal.InvoiceForm.TotalBeforeDiscount | frontend/src/components/scanner/InvoicePaymentModal.tsx:64-65 | the main amount, plus the special amount only when toggled on |
| InvoicePaymentModal.InvoiceForm.TotalAfterDiscount | frontend/src/components/scanner/InvoicePaymentModal.tsx:64-65 | the same sum of the discounted amounts |
| InvoicePaymentModal.InvoiceForm.TotalAfterWithinBefore | frontend/src/components/scanner/InvoicePaymentModal.tsx:42-65 | with the effects run and percentages in 0 to 100, the discounted total lies between 0 and the total, strictly below it when the blanket discount applies |
| InvoicePaymentModal.InvoiceForm.ChangeMainAmount | frontend/src/components/scanner/InvoicePaymentModal.tsx:67-72 | the field becomes AcceptTyped of its old text (a refused keystroke keeps it) and its discounted value follows |
| InvoicePaymentModal.InvoiceForm.ChangeSpecialAmount | frontend/src/components/scanner/InvoicePaymentModal.tsx:74-79 | the same for the special amount field |
| InvoicePaymentModal.InvoiceForm.ToggleSpecialDiscount | frontend/src/components/scanner/InvoicePaymentModal.tsx:64-65 | flips the toggle and keeps the amounts |
| InvoicePaymentModal.InvoiceForm.HandleSubmit | frontend/src/components/scanner/InvoicePaymentModal.tsx:81-103 | the outcome of Submit on the form's state |
| CustomerPointsCard.NextLevel | frontend/src/components/dashboard/CustomerPointsCard.tsx:27-28 | bronze to silver to gold, none above gold, each with a higher minimum |
| CustomerPointsCard.BandsContiguous | frontend/src/components/dashboard/CustomerPointsCard.tsx:8-12 | each band ends one point before the next starts |
| CustomerPointsCard.DetectLevel | frontend/src/components/dashboard/CustomerPointsCard.tsx:21-24 | the given level, else the band holding the points |
| CustomerPointsCard.DetectedLevelIsTheBand | frontend/src/components/dashboard/CustomerPointsCard.tsx:8-24 | for a non-negative balance the detected level is the only band holding it |
| CustomerPointsCard.PointsToNext | frontend/src/components/dashboard/CustomerPointsCard.tsx:31 | what the next minimum still asks for, 0 at the top |
| CustomerPointsCard.Progress | frontend/src/components/dashboard/CustomerPointsCard.tsx:32-34 | the covered share of the band in percent, 100 at the top |
| CustomerPointsCard.DetectedProgressInRange | frontend/src/components/dashboard/CustomerPointsCard.tsx:21-34 | below gold, a detected level has points to go and progress in [0, 100) |
| CustomerPointsCard.GivenLevelCanOvershoot | frontend/src/components/dashboard/CustomerPointsCard.tsx:21-34 | a given level below the balance gives negative points to go and progress over 100 |
| CustomerPointsCard.BarWidth | frontend/src/components/dashboard/CustomerPointsCard.tsx:66 | the progress capped at 100 |
| CustomerPointsCard.Caption | frontend/src/components/dashboard/CustomerPointsCard.tsx:72-80 | the top-level line exactly at gold; else the next level with the points still missing, or the note that it is reached |
| ProfileDatePicker.JsRem | frontend/src/pages/dashboard/Profile.tsx:173 | JavaScript `%`: the remainder has the dividend's sign |
| ProfileDatePicker.StopIndex | frontend/src/pages/dashboard/Profile.tsx:166-171 | the scan stops at the first later break above the year, or at the end |
| ProfileDatePicker.ScanBreaks | frontend/src/pages/dashboard/Profile.tsx:161-174 | the loop over any table of breaks computes the closing formula at the stop |
| ProfileDatePicker.ScanRunsOut | frontend/src/pages/dashboard/Profile.tsx:166-171 | when no later break is above the year the scan reaches the end of the table |
| ProfileDatePicker.IsLeapYear | frontend/src/pages/dashboard/Profile.tsx:161-174 | the method's answer is the as-written rule over the source's table of breaks |
| ProfileDatePicker.LeapAsWritten | frontend/src/pages/dashboard/Profile.tsx:161-174 | from year 125 on, the rule is a single residue test modulo 128 |
| ProfileDatePicker.LeapYearsInABlock | frontend/src/pages/dashboard/Profile.tsx:161-174 | as written, 1329 to 1358 are all leap and 1359 to 1456 none |
| ProfileDatePicker.LeapYearsApart | frontend/src/pages/dashboard/Profile.tsx:161-174 | under the 33-year rule, no two leap years are adjacent |
| ProfileDatePicker.LeapPeriodic | frontend/src/pages/dashboard/Profile.tsx:161-174 | the 33-year rule repeats every 33 years |
| ProfileDatePicker.DaysInMonth | frontend/src/pages/dashboard/Profile.tsx:153-159 | 31 days for months 1 to 6, 30 for 7 to 11, 30 or 29 for 12 by the leap rule |
| ProfileDatePicker.YearLength | frontend/src/pages/dashboard/Profile.tsx:153-159 | a year has 366 days when leap, else 365 |
| ProfileDatePicker.OffsetsFollowMonthLengths | frontend/src/pages/dashboard/Profile.tsx:87 | consecutive month offsets differ by the earlier month's length |
| ProfileDatePicker.DayOfYearOrdered | frontend/src/pages/dashboard/Profile.tsx:88 | valid dates map into the year in calendar order without collisions |
| ProfileDatePicker.MonthChange | frontend/src/pages/dashboard/Profile.tsx:201-217 | previous from month 1 wraps to 12 of the year before, next from 12 to 1 of the year after; else one step |
| ProfileDatePicker.MonthChangeInverse | frontend/src/pages/dashboard/Profile.tsx:201-217 | the month stays in 1 to 12 and each direction undoes the other |
| ProfileDatePicker.TwelveStepsAYear | frontend/src/pages/dashboard/Profile.tsx:209-216 | k steps forward land k months later, wrapping into the next year; twelve reach the same month a year on |
| ProfileDatePicker.DatePicker.HandleMonthChange | frontend/src/pages/dashboard/Profile.tsx:201-217 | the selected year and month become MonthChange of the old ones |
| ProfileDatePicker.DatePicker.DaysInSelectedMonth | frontend/src/pages/dashboard/Profile.tsx:153-159 | the month length under the leap scan as written |
| TopBusinessSlider.CategoryOrder | frontend/src/components/dashboard/TopBusinessSlider.tsx:23-31 | each category of an eligible package, once, in first-seen order |
| TopBusinessSlider.InCategory | frontend/src/components/dashboard/TopBusinessSlider.tsx:23-31 | exactly the eligible packages of the category |
| TopBusinessSlider.NewestIndex | frontend/src/components/dashboard/TopBusinessSlider.tsx:34-52 | the position of a newest package, the first of equally new ones |
| TopBusinessSlider.Newest | frontend/src/components/dashboard/TopBusinessSlider.tsx:34-52 | a package of the list that no other is newer than |
| TopBusinessSlider.TopPerCategory | frontend/src/components/dashboard/TopBusinessSlider.tsx:34-52 | for each category in order, an eligible package of it that no other is newer than |
| TopBusinessSlider.OnePerCategory | frontend/src/components/dashboard/TopBusinessSlider.tsx:34-52 | no category is selected twice |
| TopBusinessSlider.GroupByCategory | frontend/src/components/dashboard/TopBusinessSlider.tsx:23-31 | the grouping loop yields the category order and each category's packages |
| TopBusinessSlider.GroupsAreCategories | frontend/src/components/dashboard/TopBusinessSlider.tsx:23-31 | the grouped map has a key for exactly the categories met, each holding exactly that category's eligible packages in input order |
| TopBusinessSlider.SelectNewest | frontend/src/components/dashboard/TopBusinessSlider.tsx:34-52 | the selection loop over the grouping yields, per category in order, its newest package |
| TopBusinessSlider.Next | frontend/src/components/dashboard/TopBusinessSlider.tsx:69-75 | one step forward, the last wrapping to the first |
| TopBusinessSlider.Previous | frontend/src/components/dashboard/TopBusinessSlider.tsx:69-75 | one step back, the first wrapping to the last |
| TopBusinessSlider.NextPreviousInverse | frontend/src/components/dashboard/TopBusinessSlider.tsx:69-75 | each direction undoes the other |
| TopBusinessSlider.Slider.OnPackagesChange | frontend/src/components/dashboard/TopBusinessSlider.tsx:17-56 | an empty list keeps the slider; otherwise the selection is rebuilt and the index reset to 0 |
| TopBusinessSlider.Slider.HandleNext | frontend/src/components/dashboard/TopBusinessSlider.tsx:69-75 | the index becomes Next of the old one |
| TopBusinessSlider.Slider.HandlePrevious | frontend/src/components/dashboard/TopBusinessSlider.tsx:69-75 | the index becomes Previous of the old one |
| TopBusinessSlider.Slider.Shown | frontend/src/components/dashboard/TopBusinessSlider.tsx:81-83 | nothing for an empty selection, else the card at the index |
| Explore.Loaded | frontend/src/pages/Explore.tsx:47-49 | exactly the active, approved and complete packages |
| Explore.Lower | frontend/src/pages/Explore.tsx:70-76 | ASCII lower-casing, letter by letter |
| Explore.Searched | frontend/src/pages/Explore.tsx:70-76 | an empty term keeps all; else exactly the packages whose name or gift title contains the term, case aside |
| Explore.ApplyFilters | frontend/src/pages/Explore.tsx:66-101 | a permutation of the searched packages, ordered by discount (missing as 0) or by date as chosen |
| Explore.ResultIsTheMatches | frontend/src/pages/Explore.tsx:66-101 | the result holds exactly the matching packages |
| Explore.CategoryIgnored | frontend/src/pages/Explore.tsx:79-84 | changing the category changes nothing |
| Explore.SearchIgnoresCase | frontend/src/pages/Explore.tsx:70-76 | the search ignores letter case |
| Explore.ExplorePage.LoadPackages | frontend/src/pages/Explore.tsx:44-55 | the browsable packages are kept and the shown list follows |
| Explore.ExplorePage.SetFilters | frontend/src/pages/Explore.tsx:103-105 | the filters change and the shown list follows |
| DiscountManagement.StatusBadge | frontend/src/pages/business/DiscountManagement.tsx:74-86 | future before the start, expired after the end, active otherwise |
| DiscountManagement.BadgeAgreesWithCounts | frontend/src/pages/business/DiscountManagement.tsx:74-101 | the active count is the active badge; for ordered dates the expired count is the expired badge |
| DiscountManagement.CountsWithinTotal | frontend/src/pages/business/DiscountManagement.tsx:89-101 | active plus expired never exceed the total |
| DiscountManagement.TotalUsagePositive | frontend/src/pages/business/DiscountManagement.tsx:102 | there are votes exactly when some discount has one |
| DiscountManagement.TotalUsageAppend | frontend/src/pages/business/DiscountManagement.tsx:102 | the total of two lists is the sum of their totals |
| DiscountManagement.AverageRating | frontend/src/pages/business/DiscountManagement.tsx:103-114 | 0 without votes, else the vote-weighted mean of the averages |
| DiscountManagement.RatingPointsBounds | frontend/src/pages/business/DiscountManagement.tsx:103-114 | the weighted points lie between once and five times the votes |
| DiscountManagement.AverageRatingInRange | frontend/src/pages/business/DiscountManagement.tsx:103-114 | with averages in 1 to 5, the overall rating is in 1 to 5 |
| ProtectedRoute.Dashboard | frontend/src/components/ProtectedRoute.tsx:40-50 | the business dashboard for business users, the customer one for everyone else |
| ProtectedRoute.Protected | frontend/src/components/ProtectedRoute.tsx:12-55 | spinner exactly while loading; the page exactly when the sign-in, role and guest conditions hold; else the right redirect |
| ProtectedRoute.GuestRoute | frontend/src/components/ProtectedRoute.tsx:58-64 | spinner while loading; a signed-in user on the login or register page is sent to the dashboard; else the page |
| ProtectedRoute.AdminRoute | frontend/src/components/ProtectedRoute.tsx:113-119 | spinner while loading; visitors to login; non-staff to the dashboard; staff see the page |
| ProtectedRoute.ViewOf | frontend/src/App.tsx:37-172 | open pages render; guarded pages show the spinner exactly while loading; visitors go to login; customer and business pages render exactly for their own kind; guest pages exactly for visitors |
| ProtectedRoute.AdminRouteOnlyStaff | frontend/src/components/ProtectedRoute.tsx:113-119 | the admin route renders exactly for signed-in staff |
| ProtectedRoute.GuestPageOnlyForVisitors | frontend/src/components/ProtectedRoute.tsx:58-64 | the login and register pages render exactly for visitors |
| ProtectedRoute.RoleRoute | frontend/src/components/ProtectedRoute.tsx:67-110 | spinner while loading, login for visitors, the page for the role, else the other dashboard |
| ProtectedRoute.RoleRouteIsARestriction | frontend/src/components/ProtectedRoute.tsx:67-110 | for customers and business users, a role route decides like ProtectedRoute limited to that role |
| ProtectedRoute.GuardOf | frontend/src/App.tsx:37-242 | login and register are guest pages; the dashboards' paths are role pages; home is open |
| ProtectedRoute.HomeOf | frontend/src/components/ProtectedRoute.tsx:82-107 | corrected landing: the user's own dashboard, home for staff |
| ProtectedRoute.CorrectionOnlyForStaff | frontend/src/components/ProtectedRoute.tsx:82-107 | the correction changes nothing for customers, business users and visitors |
| ProtectedRoute.Visit | frontend/src/components/ProtectedRoute.tsx:12-110 | a page reached by following redirects renders |
| ProtectedRoute.StaffRedirectLoop | frontend/src/components/ProtectedRoute.tsx:82-107 | as written, a staff user on either dashboard or the login page never reaches a page |
| ProtectedRoute.EveryPathSettles | frontend/src/components/ProtectedRoute.tsx:82-107 | corrected, every path renders after at most one redirect for everyone |
| ProfileGuard.Guard | frontend/src/components/ProfileGuard.tsx:14-41 | home for visitors; the profile page for a customer or business user known to be incomplete, unless allowed; else the page |
| ProfileGuard.ProfilePageAlwaysReachable | frontend/src/components/ProfileGuard.tsx:23-25 | the profile page lets every signed-in user in |
| ProfileGuard.CompletedProfilePasses | frontend/src/components/ProfileGuard.tsx:28-40 | a complete or unknown profile passes |
| ProfileGuard.OtherRolesPass | frontend/src/components/ProfileGuard.tsx:28-40 | other roles are never sent to the profile page |

## Left out

- Django and DRF plumbing is not modelled: HTTP parsing, serializer field rendering, permission classes beyond the role checks modelled, migrations and the admin site.
- Messages and response texts are left out; a response is its status and data.
- Concurrency and transactions are out. Each operation runs alone, so races between two saves are not modelled.
- Database integrity errors on partial payloads are not modelled, apart from the unique keys named in the table.
- Floating point and `Decimal` rounding are out. Amounts are exact reals.
- DiscountSerializers.AverageScore: does not round to one decimal, because exact reals stand in for the rounding.
- The clock is a parameter (`now`, `today`), and so is the random draw of the one-time code.
- Cache expiry (300 seconds) is not modelled.
- SMS delivery is a parameter, its outcome given.
- `status`, `is_complete`, `can_activate_immediately`, `activate_package` and `deactivate_package` of the package model are not part of backend/packages/models.py:53-64. Their columns are modelled as fields. The primitives get the minimal contract: they set or clear `is_active` only. The permission is a parameter.
- The composition of the batch run with the post-save handler is not modelled. The batch calls the primitives directly.
- Ties between equal `created_at` values take the first row in table order. The database's tie order is unspecified.
- DRF reports all field errors at once. Validate returns the first refusal only.
- LoyaltySerializers.Validate: amounts are exact reals, so a whole amount written with fractional zeros (`10.0`) is not told apart from `10`.
- `int()` of non-ASCII digits is not modelled. So is JavaScript whitespace beyond ASCII, and the `0x` prefix of `parseInt`.
- Locale digit grouping is modelled for fa-IR digits only. Other locales' marks are left out.
- Invalid dates (NaN) in the frontend's sorts and comparisons are not modelled. Dates are integers.
- Logo and image URLs, the `note` field and the city and category lookups of the list serializer are not modelled.
- The `unique_code` column of the business profile is assumed. Its model file is not part of this model.
- Explore.ApplyFilters: `Array.prototype.sort` is a library call, so the result is modelled as a sequence: sorted by the key and a permutation. Stability is not stated.
- Explore.Lower: lower-casing covers ASCII letters only.
- ProtectedRoute.GuardOf: the route table covers the static paths. Paths with parameters and the wildcard route are read as open pages.
- ProfileGuard is modelled as written, but frontend/src/App.tsx never mounts it. Its decisions therefore gate no route of the application as shipped.
- The React rendering, loading spinners' markup, modals and navigation state are not modelled beyond the decisions above.

## Findings

| source | as written | input that shows it | evidently intended | confidence | as-written member | corrected member |
|---|---|---|---|---|---|---|
| backend/discounts/views.py:72-77 | `get_permissions` returns only `IsAuthenticated` for `rate` and `comment`, so their `IsCustomerOrReadOnly` never runs | a business user without a customer profile rates a discount of their business: 500, not 403 | accounts without a customer profile are refused with 403 | high, not executed | DiscountViews.PermissionClassIgnored | DiscountViews.ActionGateCorrected |
| backend/packages/management/commands/activate_pending_packages.py:25-41 | the expired package is deactivated and then matched by the next-pending query itself | one approved, complete, active package whose end date is today | an expired package is not picked as its own successor | medium, not executed | ActivatePendingPackages.AsWrittenReactivatesExpired | ActivatePendingPackages.SkipExpiredLeavesNoExpiredActive |
| backend/loyalty/serializers.py:95-101 | `business=` is passed and `**validated_data` also holds `business` | any valid create payload | each keyword is passed once | high, not executed | LoyaltySerializers.CreateCallAlwaysClashes | LoyaltySerializers.CorrectedCallBinds |
| backend/discounts/views.py:119-129 | the check ignores deleted comments but the unique key does not | comment, delete it, comment again on the same discount | a deleted comment does not block a new one | high, not executed | DiscountViews.CommentAfterDeleteFails | DiscountViews.CommentNeverIntegrityError |
| backend/offers/models.py:45-71 | clean sets `gift_quantity` to None for amount gifts, yet the column is NOT NULL | any gift of type amount | amount gifts can be saved | high, not executed | OffersModels.AmountGiftNeverStored | OffersModels.CleanedGiftStorable |
| frontend/src/components/scanner/InvoicePaymentModal.tsx:12-20 | the field shows fa-IR digits, which parseNumber reads as 0 | type 1 into the main amount, then submit | the typed amount is submitted | medium, not executed | InvoicePaymentModal.TypedAmountNeverSubmits | InvoicePaymentModal.TypedAmountSubmits |
| frontend/src/pages/dashboard/Profile.tsx:161-174 | from year 125 on the rule reduces to one residue modulo 128 | years 1329 to 1358 are all leap; 1359 to 1456 none | about eight leap years in 33 | high, not executed | ProfileDatePicker.LeapYearsInABlock | ProfileDatePicker.LeapYearsApart |
| frontend/src/components/ProtectedRoute.tsx:82-107 | the customer route sends non-customers to the business dashboard and the business route the reverse | a signed-in staff user opening /dashboard/customer | a refused user lands on a page they may see | medium, not executed | ProtectedRoute.StaffRedirectLoop | ProtectedRoute.EveryPathSettles |
