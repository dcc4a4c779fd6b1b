# Crowd-Funding core in Dafny

This project models the core of the Crowd-Funding application: a Flask backend and a React frontend.

On the backend it covers:
- the helper layer that creates, reads, updates and deletes campaigns, comments and their likes, follows, donations, payments, admin reviews and users;
- the comment analytics queries;
- the JWT helpers and the three route guards (`jwt_required`, `admin_required`, `creator_required`);
- the enumerations, records and password hashing of the data model.

On the frontend it covers two components:
- the password strength meter;
- the two helpers behind the navigation bar (the dashboard link and the avatar initials).

How the backend is modelled:
- The database is an in-memory store. Each table is a map from integer keys to records, with a next-key counter (`Tables.Table`). A query returns its rows in ascending key order.
- Money amounts are integer cents. A `Numeric(8, 2)` column holds at most 99 999 999 cents in magnitude.
- Each helper file becomes two modules:
  - `...Model`: pure functions from the old tables to an `Outcome(reply, state)`. Their contracts state every reply and the new state, case by case.
  - `...Helper`: methods on one `Database.Db` object. Each method updates only the table fields it names, and its `ensures` ties the new fields to the model function. Each method also keeps `Database.Db.Valid`: every table's keys stay below its next-key counter.
- The result of `db.session.commit()` is a parameter (`Commit`):
  - `Committed` is a successful commit;
  - `IntegrityViolation` is a unique or foreign-key violation;
  - `StoreFailure` is any other database error.
  A commit that does not go through leaves the tables as they were, because nothing is committed.
- Python exceptions are `Err(ValueError(..))`, `Err(RuntimeError(..))` and so on. The text `str(e)` appended to a wrapped exception's message is not modelled.
- A loop over `**kwargs` becomes two things: a fold function over the list of keyword arguments, and a method with a `while` loop proved to compute that fold.

The model follows the code, with one exception: the default status of a new campaign or donation. The code as written rejects an omitted status (see "## Findings"). `CampaignModel.CreateCampaignAsWritten` and `DonationModel.CreateDonationAsWritten` model that code, and the operations the rest of the model uses start such a record as pending. The model keeps these behaviours of the code, though they may be unintended:
- A campaign's status may be set to any member of the enumeration. There is no transition graph.
- `raised_amount` is never checked. An update can make it negative (`CampaignModel.RaisedAmountCanGoNegative`).
- A donation amount is rejected only when it is missing or zero. A negative amount is accepted (`DonationModel.NegativeAmountAccepted`).
- A review decision is checked only for non-emptiness, not for membership of {approved, rejected}. Updating a review does not check it at all (`AdminReviewModel.EmptyDecisionAcceptedByUpdate`).
- Filtering payments by method is a case-insensitive exact match, not a substring search (`PaymentModel.MethodFilterIsNotSubstring`).
- The admin and creator guards accept a logged-in session user before they look at the token. A failure of the handler on the session path is swallowed, and the token path is tried next (`Security.SessionHandlerFailureFallsThrough`).
- The schema file `backend/api/models/cf_models.py` is out of step with the helpers:
  - its `Users` has a `name` column and no username or role;
  - it declares no comment, follow, admin-review, campaign-status, donation-status or user-role tables or enumerations.
  - its `Payments` has no amount column; the model gives a payment amount the `Numeric(8, 2)` bound of the donation amount, an assumption (`Models.StorablePayment`).
  The records here carry the fields and members the helpers use.

## Model

| member | source | states |
|---|---|---|
| Models.ParseCategory | backend/api/models/cf_models.py:21-26 | `CampaignCategory(s)` names a member exactly when `s` is one of the five value strings, and the member's value is `s` |
| Models.CategoryValue | backend/api/models/cf_models.py:21-26 | parsing a category's value string gives the category back |
| Models.ParsePaymentStatus | backend/api/models/cf_models.py:50-54 | exactly "pending", "successful", "failed" and "refunded" name a payment status |
| Models.PaymentStatusValue | backend/api/models/cf_models.py:50-54 | parsing a payment status's value string gives the status back |
| Models.ParseCampaignStatus | backend/api/helpers/campaign_helper.py:76-80 | exactly "pending", "active", "rejected" and "completed" name a campaign status |
| Models.CampaignStatusValue | backend/api/helpers/campaign_helper.py:76-80 | parsing a campaign status's value string gives the status back |
| Models.ParseDonationStatus | backend/api/helpers/donation_helper.py:62-67 | exactly the five donation status strings, "cancelled" included, name a donation status |
| Models.DonationStatusValue | backend/api/helpers/donation_helper.py:62-67 | parsing a donation status's value string gives the status back |
| Models.ParseUserRole | backend/api/helpers/user_helper.py:10-12 | exactly "donor", "creator" and "admin" name a role |
| Models.UserRoleValue | backend/api/helpers/user_helper.py:10-12 | parsing a role's value string gives the role back |
| Models.SetPasswordHash | backend/api/models/cf_models.py:15-19 | an empty password raises "Password must be non-empty.", exactly then; otherwise the stored hash accepts the password it was made from, and for an injective key derivation no other |
| CampaignModel.OmittedStatusRejectedAsWritten | backend/api/helpers/campaign_helper.py:27-29 | as written an omitted status is rejected; the corrected conversion gives pending |
| CampaignModel.CreateCampaignAsWritten | backend/api/helpers/campaign_helper.py:13-39 | the code as written: an omitted status or a bad status or category gives "Invalid status or category" and no change; success exactly when both convert, the title and amount fit and the commit goes through, adding one fresh row with raised amount 0 |
| CampaignModel.OmittedStatusCreateRejectedAsWritten | backend/api/helpers/campaign_helper.py:13-39 | `create_campaign` without a status is rejected as written and gives a pending campaign when corrected |
| CampaignModel.StatusArg | backend/api/helpers/campaign_helper.py:27-29 | an omitted status means pending; a given status must name a member |
| CampaignModel.CreateCampaign | backend/api/helpers/campaign_helper.py:13-39 | with the intended pending default for an omitted status: a bad status or category gives "Invalid status or category" and no change; success exactly when both convert, the title and amount fit their columns and the commit goes through, adding one fresh row with raised amount 0 |
| CampaignModel.DeleteCampaign | backend/api/helpers/campaign_helper.py:42-55 | an unknown id gives the not-found message; on commit exactly that row is gone |
| CampaignModel.ViewCampaignByCampaignId | backend/api/helpers/campaign_helper.py:58-62 | the row when the id exists, the not-found message otherwise |
| CampaignModel.ViewAllCampaignsByCreator | backend/api/helpers/campaign_helper.py:65-67 | every returned row is the creator's, and every row of the creator is returned |
| CampaignModel.UpdateCampaignStatus | backend/api/helpers/campaign_helper.py:70-97 | unknown id, invalid status and the current status each give their message unchanged; on commit only the status changes and one log entry records the old and new status |
| CampaignModel.ApproveCampaign | backend/api/helpers/campaign_helper.py:100-101 | approving is a status update to active, and a committed approval leaves the campaign active |
| CampaignModel.UpdateDiffIsExact | backend/api/helpers/campaign_helper.py:118-136 | the diff holds a field exactly when the update changed it, with its old and new values, each field at most once; creator and status are untouched |
| CampaignModel.NoChangesMeansUnchanged | backend/api/helpers/campaign_helper.py:118-141 | the diff is empty exactly when the campaign is unchanged |
| CampaignModel.OtherKeysIgnored | backend/api/helpers/campaign_helper.py:109-119 | keyword arguments outside the allowed fields have no effect |
| CampaignModel.UpdateCampaign | backend/api/helpers/campaign_helper.py:104-150 | unknown id gives its message and a bad category its ValueError, both unchanged; no differing field gives "No changes made to the campaign."; a real change succeeds exactly when the commit goes through and the row fits its columns, and then the row holds the new values and one log entry records the diff; otherwise "Failed to update campaign or log update" and no change |
| CampaignModel.UpdateCampaignTouchesOnlyAllowed | backend/api/helpers/campaign_helper.py:104-150 | an update alters no other campaign and keeps the creator and status |
| CampaignModel.RaisedAmountCanGoNegative | backend/api/helpers/campaign_helper.py:109-136 | an update can set a negative raised amount |
| CampaignModel.SearchCampaignByTitle | backend/api/helpers/campaign_helper.py:153-157 | exactly the campaigns whose title matches the `ILIKE %keyword%` pattern; the not-found message exactly when there are none |
| CampaignModel.SearchByTitleIsSubstring | backend/api/helpers/campaign_helper.py:153-157 | for a keyword without wildcards, the match is a case-insensitive substring test |
| CampaignModel.ViewCampaignsByCategory | backend/api/helpers/campaign_helper.py:160-171 | an invalid category gives its message; otherwise exactly the campaigns of that category, or the not-found message when there are none |
| CampaignModel.ViewAllCampaigns | backend/api/helpers/campaign_helper.py:179-180 | every campaign, each row once |
| CampaignModel.ViewAllCampaignsCount | backend/api/helpers/campaign_helper.py:179-180 | the list is as long as the table |
| CampaignModel.ViewAllActiveCampaigns | backend/api/helpers/campaign_helper.py:174-176 | exactly the active campaigns |
| CampaignModel.ViewAllCompletedCampaigns | backend/api/helpers/campaign_helper.py:183-185 | exactly the completed campaigns |
| CampaignModel.PageSlice | backend/api/helpers/campaign_helper.py:188-195 | page `p` of size `n` is the items from `(p-1)*n`, exactly `min(n, total - (p-1)*n)` of them, none past the end |
| CampaignModel.PageRows | backend/api/helpers/campaign_helper.py:189-193 | exactly the campaigns that pass the category and status filters |
| CampaignModel.ViewAllCampaignsPaginated | backend/api/helpers/campaign_helper.py:188-195 | an unknown category, then an unknown status, gives its "not a member" ValueError; otherwise the page `PageSlice` cuts from the filtered rows, with a page below 1 read as 1 and a size below 1 as 20 |
| CampaignModel.PageBelowOneIsFirst | backend/api/helpers/campaign_helper.py:194 | a page number below 1 gives the first page |
| CampaignModel.FirstPageHoldsAll | backend/api/helpers/campaign_helper.py:188-195 | a first page at least as large as the number of matching rows holds every matching campaign |
| CampaignHelper.CreateCampaign | backend/api/helpers/campaign_helper.py:13-39 | the store's campaign table becomes the outcome of the corrected `CampaignModel.CreateCampaign` |
| CampaignHelper.DeleteCampaign | backend/api/helpers/campaign_helper.py:42-55 | the store's campaign table becomes the model's outcome |
| CampaignHelper.UpdateCampaignStatus | backend/api/helpers/campaign_helper.py:70-97 | the store's campaign and update tables become the model's outcome |
| CampaignHelper.ApproveCampaign | backend/api/helpers/campaign_helper.py:100-101 | the store's campaign and update tables become the model's outcome |
| CampaignHelper.ApplyCampaignKwargs | backend/api/helpers/campaign_helper.py:118-136 | the loop over the keyword arguments computes the fold the model defines |
| CampaignHelper.UpdateCampaign | backend/api/helpers/campaign_helper.py:104-150 | the store's campaign and update tables become the outcome of `CampaignModel.UpdateCampaign`, including its success and failure cases |
| CommentModel.CreateComment | backend/api/helpers/comment_helper.py:7-15 | on commit one fresh comment with 0 likes; otherwise the RuntimeError and no change; the likes stay in step with the like rows |
| CommentModel.DeleteComment | backend/api/helpers/comment_helper.py:18-31 | unknown id gives the not-found message; on commit the comment and its like rows are gone |
| CommentModel.UpdateComment | backend/api/helpers/comment_helper.py:34-45 | unknown id gives the not-found message; on commit only the content changes |
| CommentModel.ViewCommentByCommentId | backend/api/helpers/comment_helper.py:48-52 | the row when the id exists, the not-found message otherwise |
| CommentModel.ViewAllCommentsByUser | backend/api/helpers/comment_helper.py:55-57 | exactly the user's comments |
| CommentModel.ViewAllCommentsByCampaign | backend/api/helpers/comment_helper.py:60-62 | exactly the campaign's comments |
| CommentModel.NewLikes | backend/api/helpers/comment_helper.py:76-83 | an unlike lowers a positive count by one and never below 0; a like raises it by one |
| CommentModel.ToggleLike | backend/api/helpers/comment_helper.py:65-95 | unknown user or comment gives its message unchanged; on commit the like row is added or removed and the reply says liked or unliked |
| CommentModel.LikersAfterAdd | backend/api/helpers/comment_helper.py:80-82 | a like adds exactly that user to that comment's likers |
| CommentModel.LikersAfterRemove | backend/api/helpers/comment_helper.py:76-78 | an unlike removes exactly that user from that comment's likers |
| CommentModel.ToggleKeepsLikesInStep | backend/api/helpers/comment_helper.py:65-95 | every comment's like count stays equal to its number of likers |
| CommentModel.ToggleKeepsLikesNonNegative | backend/api/helpers/comment_helper.py:76-83 | like counts stay non-negative |
| CommentModel.ToggleTwiceRestores | backend/api/helpers/comment_helper.py:65-95 | toggling twice restores comments and likes |
| CommentModel.GetTotalLikes | backend/api/helpers/comment_helper.py:97-99 | 0 for an unknown comment; while the counters are in step with the like rows, the number of users who like the comment |
| CommentHelper.CreateComment | backend/api/helpers/comment_helper.py:7-15 | the store's comment and like tables become the model's outcome |
| CommentHelper.DeleteComment | backend/api/helpers/comment_helper.py:18-31 | the store's comment and like tables become the model's outcome |
| CommentHelper.UpdateComment | backend/api/helpers/comment_helper.py:34-45 | the store's comment and like tables become the model's outcome |
| CommentHelper.ToggleLike | backend/api/helpers/comment_helper.py:65-95 | the store's comment and like tables become the model's outcome |
| FollowModel.FindFollow | backend/api/helpers/follow_helper.py:8 | finds the follow row of the pair, and finds none exactly when there is none |
| FollowModel.FollowCampaign | backend/api/helpers/follow_helper.py:7-24 | a repeated follow is rejected; an integrity violation gives its message; success exactly on a new pair and a commit, adding one row; pairs stay unique |
| FollowModel.UnfollowCampaign | backend/api/helpers/follow_helper.py:27-38 | a missing pair is rejected; on commit exactly that row is removed |
| FollowModel.DeleteFollow | backend/api/helpers/follow_helper.py:84-95 | unknown id is rejected; on commit exactly that row is removed |
| FollowModel.ViewFollowById | backend/api/helpers/follow_helper.py:41-45 | the row when the id exists, the ValueError otherwise |
| FollowModel.ViewAllFollows | backend/api/helpers/follow_helper.py:48-52 | all rows; the ValueError exactly when there are none |
| FollowModel.ViewAllFollowedCampaignsByUser | backend/api/helpers/follow_helper.py:55-59 | exactly the user's follows; the ValueError exactly when there are none |
| FollowModel.ViewAllFollowersByCampaign | backend/api/helpers/follow_helper.py:62-66 | exactly the campaign's follows; the ValueError exactly when there are none |
| FollowModel.IsUserFollowing | backend/api/helpers/follow_helper.py:69-71 | true exactly when the pair has a row |
| FollowModel.CountFollowers | backend/api/helpers/follow_helper.py:74-76 | the number of follow rows naming the campaign, 0 when none does |
| FollowModel.CountFollowedCampaigns | backend/api/helpers/follow_helper.py:79-81 | the number of follow rows naming the user, 0 when none does |
| FollowModel.UnfollowEndsFollowing | backend/api/helpers/follow_helper.py:27-38 | after a committed unfollow the user no longer follows the campaign |
| FollowModel.FollowThenUnfollowRestores | backend/api/helpers/follow_helper.py:7-38 | following then unfollowing restores the rows |
| FollowHelper.FollowCampaign | backend/api/helpers/follow_helper.py:7-24 | the store's follow table becomes the model's outcome |
| FollowHelper.UnfollowCampaign | backend/api/helpers/follow_helper.py:27-38 | the store's follow table becomes the model's outcome |
| FollowHelper.DeleteFollow | backend/api/helpers/follow_helper.py:84-95 | the store's follow table becomes the model's outcome |
| PaymentModel.CreatePayment | backend/api/helpers/payment_helper.py:7-42 | the checks run in order (amount, method, status), each with its own message; success exactly when all pass, the row fits and the commit goes through |
| PaymentModel.UpdatePaymentStatus | backend/api/helpers/payment_helper.py:66-89 | unknown id and invalid status are rejected; on commit only the status changes |
| PaymentModel.UpdatePaymentMethod | backend/api/helpers/payment_helper.py:92-107 | unknown id and empty method are rejected; a method over 50 characters fails at commit; otherwise only the method changes |
| PaymentModel.DeletePayment | backend/api/helpers/payment_helper.py:110-121 | unknown id is rejected; on commit exactly that row is removed |
| PaymentModel.ViewPaymentByPaymentId | backend/api/helpers/payment_helper.py:45-49 | the row when the id exists, the ValueError otherwise |
| PaymentModel.ViewAllPayments | backend/api/helpers/payment_helper.py:52-56 | all rows; the ValueError exactly when there are none |
| PaymentModel.ViewAllPaymentsByDonation | backend/api/helpers/payment_helper.py:59-63 | exactly the donation's payments; the ValueError exactly when there are none |
| PaymentModel.FilterPaymentsByStatus | backend/api/helpers/payment_helper.py:134-150 | an invalid status is rejected; otherwise exactly the payments with that status, and the ValueError when there are none |
| PaymentModel.FilterPaymentsByMethod | backend/api/helpers/payment_helper.py:153-159 | exactly the payments whose method equals the given one ignoring case; the ValueError when there are none |
| PaymentModel.MethodFilterIsNotSubstring | backend/api/helpers/payment_helper.py:153-159 | a query that occurs inside a stored method but is shorter than it does not return that payment |
| PaymentModel.MethodFilterIgnoresCase | backend/api/helpers/payment_helper.py:153-159 | a query equal to a stored method up to letter case returns that payment |
| PaymentModel.OtherLengthsNotFound | backend/api/helpers/payment_helper.py:153-159 | a query whose length differs from every stored method gives the not-found message |
| PaymentModel.GetTotalPayments | backend/api/helpers/payment_helper.py:124-126 | the number of stored payments, 0 for an empty table |
| PaymentModel.GetTotalPaymentAmount | backend/api/helpers/payment_helper.py:129-131 | the sum of the amounts of the listed payments, 0 for an empty table |
| PaymentModel.CreateAddsToTotals | backend/api/helpers/payment_helper.py:7-42 | a successful create adds one to the count and its amount to the total |
| PaymentModel.DeleteSubtractsFromTotals | backend/api/helpers/payment_helper.py:110-121 | a committed delete subtracts one from the count and its amount from the total |
| PaymentModel.UpdatesKeepTotals | backend/api/helpers/payment_helper.py:66-107 | status and method updates keep the count and the total |
| PaymentHelper.CreatePayment | backend/api/helpers/payment_helper.py:7-42 | the store's payment table becomes the model's outcome |
| PaymentHelper.UpdatePaymentStatus | backend/api/helpers/payment_helper.py:66-89 | the store's payment table becomes the model's outcome |
| PaymentHelper.UpdatePaymentMethod | backend/api/helpers/payment_helper.py:92-107 | the store's payment table becomes the model's outcome |
| PaymentHelper.DeletePayment | backend/api/helpers/payment_helper.py:110-121 | the store's payment table becomes the model's outcome |
| DonationModel.OmittedStatusRejectedAsWritten | backend/api/helpers/donation_helper.py:7-16 | as written an omitted status is rejected; the corrected conversion gives pending |
| DonationModel.CreateDonationAsWritten | backend/api/helpers/donation_helper.py:7-29 | the code as written: a missing or zero amount is rejected first, then an omitted or invalid status, with no change; success exactly when both pass, the amount fits and the commit goes through, adding one row |
| DonationModel.OmittedStatusCreateRejectedAsWritten | backend/api/helpers/donation_helper.py:7-29 | `create_donation(1, 1, 50)` raises "Invalid donation status: " as written and gives a pending donation when corrected |
| DonationModel.StatusArg | backend/api/helpers/donation_helper.py:7-16 | an omitted status means pending; a given status must be one of the five value strings |
| DonationModel.CreateDonation | backend/api/helpers/donation_helper.py:7-29 | with the intended pending default for an omitted status: a missing or zero amount is rejected first, then an invalid status; success exactly when both pass, the amount fits and the commit goes through, adding one row |
| DonationModel.NegativeAmountAccepted | backend/api/helpers/donation_helper.py:8-9 | with an explicit "pending" status, a negative amount is stored by the code as written and by the corrected operation |
| DonationModel.ViewDonationByDonationId | backend/api/helpers/donation_helper.py:32-37 | the row when the id exists, the ValueError otherwise |
| DonationModel.ViewAllDonationsByUser | backend/api/helpers/donation_helper.py:40-45 | exactly the user's donations; the ValueError exactly when there are none |
| DonationModel.ViewAllDonationsByCampaign | backend/api/helpers/donation_helper.py:48-53 | exactly the campaign's donations; the ValueError exactly when there are none |
| DonationModel.UpdateDonationStatus | backend/api/helpers/donation_helper.py:56-75 | unknown id and invalid status are rejected; on commit only the status changes |
| DonationModel.CancelDonation | backend/api/helpers/donation_helper.py:78-90 | unknown id gives "Donation not found"; on commit the status becomes cancelled and nothing else changes |
| DonationModel.CancelIsIdempotent | backend/api/helpers/donation_helper.py:78-90 | cancelling twice is cancelling once, and the donation ends cancelled |
| DonationModel.CancelIsStatusUpdate | backend/api/helpers/donation_helper.py:56-90 | cancelling has the same effect as setting the status to "cancelled" |
| DonationHelper.CreateDonation | backend/api/helpers/donation_helper.py:7-29 | the store's donation table becomes the outcome of the corrected `DonationModel.CreateDonation` |
| DonationHelper.UpdateDonationStatus | backend/api/helpers/donation_helper.py:56-75 | the store's donation table becomes the model's outcome |
| DonationHelper.CancelDonation | backend/api/helpers/donation_helper.py:78-90 | the store's donation table becomes the model's outcome |
| AdminReviewModel.CreateAdminReview | backend/api/helpers/admin_review_helper.py:7-23 | an empty decision is rejected; success exactly on a commit, adding one row |
| AdminReviewModel.ViewAdminReviewByReviewId | backend/api/helpers/admin_review_helper.py:26-30 | the row when the id exists, the ValueError otherwise |
| AdminReviewModel.ViewAllAdminReviewsByAdminId | backend/api/helpers/admin_review_helper.py:33-35 | exactly the admin's reviews |
| AdminReviewModel.ViewAllAdminReviewsByCampaignId | backend/api/helpers/admin_review_helper.py:38-40 | exactly the campaign's reviews |
| AdminReviewModel.ViewReviewsByDecision | backend/api/helpers/admin_review_helper.py:82-84 | exactly the reviews with that decision |
| AdminReviewModel.DeleteAdminReview | backend/api/helpers/admin_review_helper.py:43-57 | unknown id is rejected; on commit exactly that row is removed |
| AdminReviewModel.ApplyKwargsEffect | backend/api/helpers/admin_review_helper.py:66-71 | the keyword arguments fail exactly when one sets the decision to None; otherwise decision and comments take the values passed and the admin and campaign stay |
| AdminReviewModel.UpdateAdminReview | backend/api/helpers/admin_review_helper.py:60-79 | unknown id and a failing argument are rejected unchanged; on commit the row becomes the updated review |
| AdminReviewModel.EmptyDecisionAcceptedByUpdate | backend/api/helpers/admin_review_helper.py:7-79 | create rejects an empty decision but update stores one |
| AdminReviewHelper.CreateAdminReview | backend/api/helpers/admin_review_helper.py:7-23 | the store's review table becomes the model's outcome |
| AdminReviewHelper.DeleteAdminReview | backend/api/helpers/admin_review_helper.py:43-57 | the store's review table becomes the model's outcome |
| AdminReviewHelper.ApplyReviewKwargs | backend/api/helpers/admin_review_helper.py:66-71 | the loop over the keyword arguments computes the fold the model defines |
| AdminReviewHelper.UpdateAdminReview | backend/api/helpers/admin_review_helper.py:60-79 | the store's review table becomes the model's outcome |
| UserModel.PutKeepsUnique | backend/api/helpers/user_helper.py:49-71 | writing a user whose username and email clash with no other row keeps them unique |
| UserModel.CreateUser | backend/api/helpers/user_helper.py:7-26 | an invalid role is rejected, then an empty password with bcrypt's ValueError, both with no change; a clash with a username or email gives the "already exists" error; on commit one fresh row with the hashed password; uniqueness is kept |
| UserModel.ChangePassword | backend/api/helpers/user_helper.py:28-41 | unknown id is rejected, then an empty password with bcrypt's ValueError, both with no change; success exactly for a known id, a non-empty password and a commit that goes through, and then only the hash changes |
| UserModel.SearchUsers | backend/api/helpers/user_helper.py:43-47 | exactly the users whose username or email matches `ILIKE %keyword%` |
| UserModel.SearchUsersIsSubstring | backend/api/helpers/user_helper.py:43-47 | for a keyword without wildcards, that is a case-insensitive substring test on either field |
| UserModel.GetAllUsers | backend/api/helpers/user_helper.py:85-88 | every user, only users |
| UserModel.GetUserByUsername | backend/api/helpers/user_helper.py:91-95 | a user with that username, and `None` exactly when there is none |
| UserModel.GetUserByEmail | backend/api/helpers/user_helper.py:98-102 | a user with that email, and `None` exactly when there is none |
| UserModel.ViewUser | backend/api/helpers/user_helper.py:105-109 | the row when the id exists, "User not found." otherwise |
| UserModel.CheckLoginCredentials | backend/api/helpers/user_helper.py:74-83 | success only for a user named by username or email whose hash accepts the password; one message for every failure |
| UserModel.LoginOfNamedUser | backend/api/helpers/user_helper.py:74-83 | when only one user is named, login succeeds exactly when that user's hash accepts the password |
| UserModel.LoginAfterCreate | backend/api/helpers/user_helper.py:7-83 | when no existing user has the identifier as username or email, a created user logs in with its username or email and the password, and gets the new id; with an injective key derivation any other password fails |
| UserModel.LoginAfterChangePassword | backend/api/helpers/user_helper.py:28-41 | after a change to a non-empty password the new password logs in, and under an injective hash the old one no longer does |
| UserModel.CrossFieldCollision | backend/api/helpers/user_helper.py:75 | when one user's email equals another's username, logging in with that string finds the older user, so the other user's password is refused |
| UserModel.ApplyKwargsKeepsPassword | backend/api/helpers/user_helper.py:53-58 | the update never touches the hash, and fails exactly when a role names no member |
| UserModel.ApplyKwargsUntouched | backend/api/helpers/user_helper.py:53-58 | a field with no keyword argument keeps its value |
| UserModel.UpdateUser | backend/api/helpers/user_helper.py:49-71 | unknown id, bad role and a username or email clash are rejected unchanged; on commit the row becomes the updated user; uniqueness is kept |
| UserModel.DeleteUser | backend/api/helpers/user_helper.py:112-124 | unknown id gives "No user found."; on commit the user and their like rows are gone |
| UserModel.DeleteAllUsers | backend/api/helpers/user_helper.py:127-134 | on commit the table is empty and the message gives how many rows were deleted |
| UserHelper.CreateUser | backend/api/helpers/user_helper.py:7-26 | the store's user table becomes the model's outcome |
| UserHelper.ChangePassword | backend/api/helpers/user_helper.py:28-41 | the store's user table becomes the model's outcome |
| UserHelper.ApplyUserKwargs | backend/api/helpers/user_helper.py:53-58 | the loop over the keyword arguments computes the fold the model defines |
| UserHelper.UpdateUser | backend/api/helpers/user_helper.py:49-71 | the store's user table becomes the model's outcome |
| UserHelper.DeleteUser | backend/api/helpers/user_helper.py:112-124 | the store's user and like tables become the model's outcome |
| UserHelper.DeleteAllUsers | backend/api/helpers/user_helper.py:127-134 | the store's user table becomes the model's outcome |
| CommentAnalytics.GetTotalComments | backend/api/helpers/comment_analytics_helper.py:6-7 | the number of comments |
| CommentAnalytics.GetTotalCommentsByUser | backend/api/helpers/comment_analytics_helper.py:10-15 | the number of the user's comments |
| CommentAnalytics.GetTotalCommentsByCampaign | backend/api/helpers/comment_analytics_helper.py:18-23 | the number of the campaign's comments |
| CommentAnalytics.FilteredCountsWithinTotal | backend/api/helpers/comment_analytics_helper.py:6-23 | neither filtered count exceeds the total |
| CommentAnalytics.CreateCountsOnce | backend/api/helpers/comment_analytics_helper.py:6-23 | a new comment adds one to the total and to its user's and campaign's counts, and leaves another user's count alone |
| CommentAnalytics.Tally | backend/api/helpers/comment_analytics_helper.py:31-32 | grouping lists each name once with its number of occurrences |
| CommentAnalytics.SortDesc | backend/api/helpers/comment_analytics_helper.py:33 | a permutation in descending order of count |
| CommentAnalytics.TopOf | backend/api/helpers/comment_analytics_helper.py:31-35 | at most `limit` distinct names in descending order with their true counts; a name left out occurs no more often than any listed name; with fewer than `limit` listed, every name is listed |
| CommentAnalytics.JoinedNamesCount | backend/api/helpers/comment_analytics_helper.py:31 | after the join a name occurs once per comment whose parent carries that name |
| CommentAnalytics.GetTopCommenters | backend/api/helpers/comment_analytics_helper.py:26-38 | the top `limit` usernames by comment count, with the ranking guarantees of `TopOf` |
| CommentAnalytics.GetTopCommentedCampaigns | backend/api/helpers/comment_analytics_helper.py:41-53 | the top `limit` campaign titles by comment count, with the ranking guarantees of `TopOf` |
| CommentAnalytics.SameTitleMerges | backend/api/helpers/comment_analytics_helper.py:47 | comments on two campaigns that share a title are counted as one entry |
| Security.GenerateJwt | backend/api/helpers/security_helper.py:7-18 | the claims carry role, user id, issue time `now` and expiry `now + 3600`; an encoding failure becomes the RuntimeError |
| Security.VerifyJwt | backend/api/helpers/security_helper.py:21-30 | verified claims are returned; an expired or invalid token gives its ValueError |
| Security.BearerToken | backend/api/helpers/security_helper.py:36-43 | a token exactly when the header starts with "Bearer "; it is the second space-separated piece and holds no space |
| Security.BearerTokenRoundTrip | backend/api/helpers/security_helper.py:36-43 | "Bearer " followed by a space-free token gives that token back |
| Security.BearerTokenStopsAtSpace | backend/api/helpers/security_helper.py:43 | text after a second space is dropped |
| Security.JwtRequired | backend/api/helpers/security_helper.py:33-51 | a missing or non-bearer header gives 401 with its message; an expired or invalid token gives 401 with its message; the handler runs only for a verified token, with its user id |
| Security.RoleRequired | backend/api/helpers/security_helper.py:54-119 | an authenticated session with the wanted role, ignoring case, runs the handler; otherwise the token must verify and its role must equal the wanted one exactly, else 403 |
| Security.AdminRequired | backend/api/helpers/security_helper.py:54-85 | the guard for role "admin" with the denial "Admins only" |
| Security.CreatorRequired | backend/api/helpers/security_helper.py:88-119 | the guard for role "creator" with the denial "Creators only" |
| Security.IssuedTokenPassesJwtRequired | backend/api/helpers/security_helper.py:7-51 | a freshly issued token, sent as a bearer header, reaches the handler with its user id |
| Security.IssuedTokenAtAdminRoute | backend/api/helpers/security_helper.py:7-85 | an issued admin token passes the admin guard |
| Security.RolesDoNotCross | backend/api/helpers/security_helper.py:54-119 | a creator token is refused by the admin guard, and the reverse |
| Security.SessionFoldsCaseTokenDoesNot | backend/api/helpers/security_helper.py:60-80 | a role "Admin" passes on the session path but is refused in a token |
| Security.SessionHandlerFailureFallsThrough | backend/api/helpers/security_helper.py:57-83 | a handler failure on the session path leads to the token path |
| PasswordStrength.AnyUpper | frontend/src/components/PasswordStrength.jsx:7 | the scan finds an ASCII capital exactly when there is one |
| PasswordStrength.AnyLower | frontend/src/components/PasswordStrength.jsx:8 | the scan finds an ASCII lower-case letter exactly when there is one |
| PasswordStrength.AnyDigit | frontend/src/components/PasswordStrength.jsx:9 | the scan finds a digit exactly when there is one |
| PasswordStrength.Checks | frontend/src/components/PasswordStrength.jsx:5-10 | the four checks, in order, with their labels and conditions |
| PasswordStrength.CountValid | frontend/src/components/PasswordStrength.jsx:12 | at most the number of checks; all pass exactly when the count is full, none exactly when it is 0 |
| PasswordStrength.ValidChecks | frontend/src/components/PasswordStrength.jsx:12 | 4 exactly when all four conditions hold, 0 exactly when none does |
| PasswordStrength.Strength | frontend/src/components/PasswordStrength.jsx:13 | a quarter per passing check, between 0 and 1 |
| PasswordStrength.BarWidth | frontend/src/components/PasswordStrength.jsx:25 | 25 percent per passing check |
| PasswordStrength.BarBand | frontend/src/components/PasswordStrength.jsx:23 | red for at most one check, amber for two or three, green for four |
| PasswordStrength.AppendNeverLowers | frontend/src/components/PasswordStrength.jsx:5-13 | appending characters never lowers the count or the strength |
| PasswordStrength.EmptyScoresZero | frontend/src/components/PasswordStrength.jsx:5-25 | the empty password scores 0 with an empty red bar |
| PasswordStrength.Examples | frontend/src/components/PasswordStrength.jsx:5-23 | "password" shows amber and "Passw0rd" shows green |
| Navbar.GetDashboardLink | frontend/src/components/Navbar.jsx:24-35 | each of the three exact role names gets its dashboard and label; any other role, or none, gets Home |
| Navbar.DashboardsDistinct | frontend/src/components/Navbar.jsx:24-35 | different roles with dashboards get different links |
| Navbar.GetInitials | frontend/src/components/Navbar.jsx:37-43 | the k-th initial is the upper-cased first character of the k-th non-empty space-separated piece, one per such piece, and no space |
| Navbar.SingleWord | frontend/src/components/Navbar.jsx:37-43 | a single word gives its first letter upper-cased |
| Navbar.TwoWords | frontend/src/components/Navbar.jsx:37-43 | two words give their two first letters, however many spaces lie between them |

## Left out

- Nothing is executed against a real database, web server or browser. Flask, SQLAlchemy, the JSON rendering of rows (`to_dict`) and the React rendering are not part of this model.
- Timestamps (`created_at`, `donation_date`, transaction dates) and the clock are not modelled, except the JWT issue time, which is a parameter.
- Key derivation (bcrypt) and JWT encoding and decoding are function parameters. Signatures, the secret key and the HS256 algorithm are outside the model.
- Concurrency and transaction isolation are outside the model. Each helper call runs alone.
- `get_average_likes_per_comment` (`backend/api/helpers/comment_analytics_helper.py:56-58`) is left out because it uses floating-point averaging and rounding.
- The text of `str(e)` appended to wrapped RuntimeError messages is left out, because it depends on the database driver.
- Models.NotAMember: the value is always quoted with single quotes. Python's `repr` switches to double quotes for a value that contains a single quote.
- Row order: the model returns rows in ascending key order. The SQL queries that have no `ORDER BY` guarantee no order.
- CommentAnalytics.TopOf: when names share a count, SQL does not say which come first or which are kept at the cut-off. The model makes one fixed choice, and the contract states only what holds for any choice.
- Pagination metadata (total pages, has-next) from Flask-SQLAlchemy's `paginate` is left out. Only the page of items is modelled.
- PaymentModel.GetTotalPaymentAmount: the total is exact integer cents; the `float(...)` conversion of the result is not modelled.
- Models.SetPasswordHash, UserModel.LoginAfterCreate and UserModel.LoginAfterChangePassword: the clauses that hold "for an injective key derivation" do not hold for bcrypt on passwords longer than 72 bytes, which bcrypt truncates.
- Upper-case and lower-case mapping (shared by `ILIKE`, `lower()` and `toUpperCase`) covers ASCII only.
- Password length counts characters, not UTF-16 code units.
- Integrity violations are modelled by comparing usernames and emails in the model. Other constraint violations are the `Commit` parameter.
- UserModel.DeleteAllUsers: removes the users but not their like or follow rows, as the bulk delete does. The model does not say what the database's foreign keys would do.
- The default role when none is given is assumed to be donor, because the enumeration is not in the schema file.
- Security.RoleRequired: the handler is a deterministic function of the user id. Side effects of running it twice on the session path of the role guards are not modelled.
- Security.RoleRequired: flask_login's import failure and the whole request context are abstracted into the session parameter.
- CampaignModel.CreateCampaign, CampaignHelper.CreateCampaign, DonationModel.CreateDonation and DonationHelper.CreateDonation: an omitted status starts the record as pending, the intended behaviour, not the rejection the code gives. The code as written is `CampaignModel.CreateCampaignAsWritten` and `DonationModel.CreateDonationAsWritten`.
- UserModel.DeleteUser and CommentModel.DeleteComment: removing the user's or the comment's like rows assumes the like association behind `user.liked_comments` (backend/api/helpers/comment_helper.py:76-82) cascades on delete. The association's declaration is not part of this model.
- Models.ParseCampaignStatus, Models.ParseDonationStatus and Models.ParseUserRole: the enumerations are not declared in `backend/api/models/cf_models.py`. The helpers name only the active and completed campaign statuses, the cancelled donation status and the admin and creator roles. The other members, the pending and rejected campaign statuses, the pending, successful, failed and refunded donation statuses and the donor role, and all the lower-case value strings, are an assumption of this model.
- The frontend helpers' display markup (icons, class names, grid) is left out.

## Findings

| source | as written | input that shows it | evidently intended | confidence | as-written member | corrected member |
|---|---|---|---|---|---|---|
| backend/api/helpers/campaign_helper.py:27-29 | the default `status=None` is converted with `CampaignStatus(None)`, which raises, so the call answers "Invalid status or category" | `create_campaign(1, "t", "d", 100, category="Arts")` | a new campaign without a status starts pending | not executed | CampaignModel.OmittedStatusCreateRejectedAsWritten | CampaignModel.StatusArg |
| backend/api/helpers/donation_helper.py:7-16 | the default `status=""` is converted with `DonationStatus("")`, which raises "Invalid donation status: " | `create_donation(1, 1, 50)` | a new donation without a status starts pending | not executed | DonationModel.OmittedStatusCreateRejectedAsWritten | DonationModel.StatusArg |
