# SCERT textbook distribution backend: a verified model

This project models the request-handling core of a textbook distribution
backend for a state education department. Schools raise requisitions for
textbooks and issues about them. Block, district and state offices review
issues, publish notifications and dispatch books with e-challans. The state
opens requisition windows. Reports aggregate all of this by district and by
block (the "IS" level). A seed script imports the school list from CSV.

Every store of the system becomes an in-memory table: a `seq` field of a
class, in insertion order. Each handler that changes a store is a method on
that class. Its `ensures` ties the reply and the new table to a pure
function of the old table (`CreateOutcome`, `ReviewOutcome`, ...). The
properties the code promises are proved about those functions: the error
cases and their order, what a success writes, what stays unchanged, and the
invariants each table keeps. HTTP answers are `Reply<T>`: `Ok(code, value)`
or `Err(code, message)`, with the handlers' own status codes and messages.
The clock, random fragments and fresh record ids are parameters.

Modules, one per source file, plus shared pieces:

- `Issues` models src/controllers/issues.controller.ts. It covers the three-level review state machine, issue creation and numbering, and the summary counts.
- `Reports` models src/controllers/reports.controller.ts. It covers the district-wise and IS-wise aggregations, the detailed reports' nested emission loops, and the overall summary.
- `Notifications` models src/controllers/notifications.controller.ts. It covers the audience rule, paging, statistics, sender and target rules, the mark-read upsert, and sender-only update and delete.
- `Windows` models src/controllers/requisition-window.controller.ts. It covers the upsert keyed by type, deactivation and the open/started/ended status.
- `EChallan` models src/controllers/echallan.controller.ts. It covers the challan id, the totals, the status update and the two-step delete.
- `Seed` models prisma/seed.ts. It covers the quote-aware CSV splitter, block extraction with de-duplication, and the batched school import.
- `Requisitions` and `Backlog` model the CRUD handlers of src/controllers/requisitions.controller.ts and src/controllers/backlog.controller.ts.
- `Districts` and `Blocks` model src/controllers/districts.controller.ts and src/controllers/blocks.controller.ts. `Directory` holds the enum/display-name conversions both use.
- `Text` models the JavaScript string and number routines the handlers rely on: `trim`, `toUpperCase`, `includes`, `padStart`, `parseInt` and `toString`.
- `Seqs` holds generic sequence lemmas (filter, sums, de-duplication). `Wrappers` holds `Option` and `Reply`. `Profiles` holds the profile type.

Where the code and the system's design description disagree, the model
follows the code:

- The description says `received` is validated against `quantity` and that a status is recomputed from it. `updateRequisition` writes any `received` and any status as given (`Requisitions.UpdateUnchecked`).
- The description says a requisition starts at `PENDING_BLOCK_APPROVAL`. `createRequisition` stores `PENDING`. The report summary counts only the three `PENDING_*_APPROVAL` statuses, so a new requisition is pending in the district-wise and IS-wise reports but not in the summary (`Reports.NewRequisitionCountedDifferently`).

Assumptions about files outside this model:

- The Prisma schema is not part of this model. The profile types are taken to be SCHOOL, BLOCK, DISTRICT and STATE, from the casts in the handlers.
- A new issue's status `PENDING_BLOCK_REVIEW` and level `BLOCK` are taken to be the schema's defaults.

## Model

| member | source | states |
|---|---|---|
| Issues.ParseLevel | src/controllers/issues.controller.ts:494-496 | a string names a level exactly when it is one of the level names, and then that level |
| Issues.Above | src/controllers/issues.controller.ts:245-247 | escalation moves to the level one rank higher |
| Issues.ParseAction | src/controllers/issues.controller.ts:206-214 | an action is accepted exactly when it is escalate, resolve or reject and the level allows it: the state level never escalates |
| Issues.EscalatedMessage | src/controllers/issues.controller.ts:276-281 | an escalation reports "Issue escalated successfully" |
| Issues.RejectedMessage | src/controllers/issues.controller.ts:276-281 | a rejection reports "Issue rejected successfully" |
| Issues.Written | src/controllers/issues.controller.ts:240-243 | an absent remark leaves the stored one, a given remark replaces it |
| Issues.Reviewed | src/controllers/issues.controller.ts:240-254 | the reviewing level's remarks and review time are written and no other level's; escalate moves to the next level's pending status, resolve sets RESOLVED and resolvedAt, reject sets that level's REJECTED_BY status and rejectedAt, neither of the last two changing the level |
| Issues.ReviewedWellFormed | src/controllers/issues.controller.ts:230-254 | an accepted review keeps an issue well formed and moves its status strictly forward |
| Issues.FindIssue | src/controllers/issues.controller.ts:216-218 | the first issue with the id, and None exactly when none has it |
| Issues.ReviewOutcome | src/controllers/issues.controller.ts:200-294 | a bad action is a 400 before any lookup, a missing issue a 404, a status other than the level's pending one a 400, all leaving the table unchanged; a valid action on an existing issue pending at that level always succeeds, replacing exactly that issue by its reviewed form and reporting the action's message |
| Issues.TerminalIsFinal | src/controllers/issues.controller.ts:230-238 | a resolved or rejected issue is refused by every review handler and stays unchanged |
| Issues.OnlyCurrentLevelReviews | src/controllers/issues.controller.ts:230-238 | only the level an issue currently sits at can review it |
| Issues.IssueNumberInjective | src/controllers/issues.controller.ts:151-153 | distinct counts give distinct issue numbers |
| Issues.IssueNumbersDistinct | src/controllers/issues.controller.ts:151-153 | in a valid table no two issues share an issue number |
| Issues.ReviewKeepsValid | src/controllers/issues.controller.ts:200-294 | a review keeps ids distinct, issues well formed and numbers in place |
| Issues.ReplaceKeepsValid | src/controllers/issues.controller.ts:256-258 | replacing an issue by a well-formed one with the same identity keeps the table valid |
| Issues.CreateOutcome | src/controllers/issues.controller.ts:120-197 | a missing title, description, school or author is the 400, an unknown school the 404, both leaving the table unchanged; with all four given and a known school creation succeeds, appending an issue numbered ISS plus the count + 1 padded to six digits, priority defaulting to MEDIUM, pending block review at block level |
| Issues.CreateKeepsValid | src/controllers/issues.controller.ts:151-170 | creating with a fresh id keeps the table valid |
| Issues.AppendKeepsValid | src/controllers/issues.controller.ts:151-170 | appending a well-formed issue with a fresh id and the next number keeps the table valid |
| Issues.IssueStore.IndexOf | src/controllers/issues.controller.ts:216-218 | the scan finds what FindIssue specifies |
| Issues.IssueStore.Create | src/controllers/issues.controller.ts:120-197 | the reply and new table are those of CreateOutcome, and the table stays valid |
| Issues.IssueStore.Review | src/controllers/issues.controller.ts:200-294 | the reply and new table are those of ReviewOutcome, and the table stays valid |
| Issues.StatusPartition | src/controllers/issues.controller.ts:508-544 | the five status counts partition the issues: the rejected count covers exactly the three REJECTED_BY statuses |
| Issues.Counts | src/controllers/issues.controller.ts:498-570 | the total is the number of issues and the sum of the five status counts; each status count and the HIGH and CRITICAL counts are exactly the number of issues with that status or priority, and the two priority counts together never exceed the total |
| Issues.IssuesSummary | src/controllers/issues.controller.ts:488-583 | no level or STATE counts every issue; another known level restricts every count to issues at that level; an unknown level is a 500 |
| Reports.RawFilter | src/controllers/reports.controller.ts:10-11 | no filter exactly when the district query is falsy or "all"; otherwise the query as given |
| Reports.DetailFilter | src/controllers/reports.controller.ts:266-269 | no filter exactly when the query is falsy or "all"; otherwise the query with every + replaced by _ and upper-cased, of the same length |
| Reports.ReqSumIsFlat | src/controllers/reports.controller.ts:81-99 | summing each school's requisition sums equals summing over all requisitions of the schools |
| Reports.PendingSumIsFlat | src/controllers/reports.controller.ts:106-116 | summing each school's pending outstanding amounts equals summing over all pending requisitions |
| Reports.PendingCountIsFlat | src/controllers/reports.controller.ts:208-214 | summing each school's pending counts equals counting all pending requisitions |
| Reports.Rate | src/controllers/reports.controller.ts:101-104 | the rate is received * 100 / requisitioned when the whole is positive and 0 otherwise, never dividing by zero |
| Reports.SchoolsOf | src/controllers/reports.controller.ts:44-55 | exactly the schools of the district |
| Reports.DistrictRowFor | src/controllers/reports.controller.ts:44-133 | the district's row: the displayed name, its school count, the total enrollment as the sum of students over every enrollment of its schools, bucket counts where a school counts when its category or type matches, the sums of quantity and received over all its requisitions, the guarded rate, and the unclamped sum of quantity - received over pending requisitions; `lastUpdated` is the given date of today |
| Reports.EnrollmentSumIsFlat | src/controllers/reports.controller.ts:70-78 | the school-by-school enrollment sum equals the flat sum over all enrollments |
| Reports.DistrictRows | src/controllers/reports.controller.ts:42-135 | one row per district, in order |
| Reports.DistrictWiseReport | src/controllers/reports.controller.ts:4-140 | exactly one row per distinct district among the selected blocks (the store's `distinct` on district), in order of first appearance; every row is the row of a selected block's district, and every selected block's district has its row |
| Reports.BucketsOverlap | src/controllers/reports.controller.ts:57-69 | a school whose category and type differ is counted in two buckets |
| Reports.AllReqsSingle | src/controllers/reports.controller.ts:81-89 | the requisitions of one school are its own |
| Reports.PendingCanBeNegative | src/controllers/reports.controller.ts:106-116 | a pending requisition with more received than requested makes the pending figure negative |
| Reports.Latest | src/controllers/reports.controller.ts:223-226 | the latest update time of a school's requisitions, 0 (the epoch) when there are none |
| Reports.BlockLatest | src/controllers/reports.controller.ts:222-228 | the latest update time over all the block's requisitions, 0 when there are none |
| Reports.ISRowFor | src/controllers/reports.controller.ts:176-241 | a block's row: its name, displayed district, school count, students enrolled as the sum of students over every enrollment of its schools, the sum of received, the count (not the sum) of pending requisitions, the guarded rate and the latest activity |
| Reports.ISRows | src/controllers/reports.controller.ts:176-242 | one row per block, in order |
| Reports.ISRowsOfSelected | src/controllers/reports.controller.ts:157-176 | the rows are exactly those of the blocks the query selects |
| Reports.ISWiseReport | src/controllers/reports.controller.ts:153-250 | one row per selected block, in table order (row i is the row of the i-th selected block); every row is the row of a selected block, and every selected block has its row |
| Reports.ReqRow | src/controllers/reports.controller.ts:301-317 | a requisition's row has available stock max(0, quantity - received) |
| Reports.ReqRows | src/controllers/reports.controller.ts:301-318 | one row per matching requisition, in order |
| Reports.EnrollmentRows | src/controllers/reports.controller.ts:294-335 | one row per requisition of a book of the enrollment's class, or exactly one placeholder row with zero requirement, dispatch and stock when there is none |
| Reports.SchoolRows | src/controllers/reports.controller.ts:293-336 | a school's rows cover each enrollment, each clamped |
| Reports.BlockRows | src/controllers/reports.controller.ts:292-337 | a block's rows are its schools' rows in order, each clamped |
| Reports.ReportRows | src/controllers/reports.controller.ts:292-337 | the report's rows are its blocks' rows in order, each clamped |
| Reports.EmitEnrollment | src/controllers/reports.controller.ts:294-335 | the inner loop appends the enrollment's rows numbered from the current serial number, and the counter stays one past the report's length |
| Reports.EmitSchool | src/controllers/reports.controller.ts:293-336 | the school loop appends the school's rows numbered consecutively |
| Reports.EmitBlock | src/controllers/reports.controller.ts:292-337 | the block loop appends the block's rows numbered consecutively |
| Reports.DetailBlocks | src/controllers/reports.controller.ts:264-289 | exactly the blocks the detailed filter selects |
| Reports.NumberedRows | src/controllers/reports.controller.ts:290-322 | rows numbered from 1 carry their position as serial number and non-negative stock |
| Reports.DetailedReport | src/controllers/reports.controller.ts:260-353 | the report is the rows of every enrollment of every school of every selected block, numbered 1, 2, 3 in emission order, with the available stock never below zero |
| Reports.ReportSummary | src/controllers/reports.controller.ts:453-498 | the totals are the sums over all requisitions and the enrollment total the sum of students; the rate is absent (shown "0.0") exactly when nothing was requisitioned, otherwise received * 100 over requisitioned; the pending count is exactly the number of requisitions awaiting block, district or state approval, never more than those whose status contains PENDING |
| Reports.ApprovalStatusesArePending | src/controllers/reports.controller.ts:472-482 | every status the summary counts as pending contains PENDING |
| Reports.NewRequisitionCountedDifferently | src/controllers/reports.controller.ts:472-482 | a newly created PENDING requisition counts as pending in the district-wise and IS-wise reports but not in the summary |
| Notifications.ParseProfile | src/controllers/notifications.controller.ts:56-80 | a level is recognised exactly when its upper-cased form names a profile type, and then that type |
| Notifications.FindId | src/controllers/notifications.controller.ts:268-280 | the first notification with the id, and None exactly when none has it |
| Notifications.FindRead | src/controllers/notifications.controller.ts:283-298 | the first read record of the notification and user, and None exactly when there is none |
| Notifications.CodeParam | src/controllers/notifications.controller.ts:40-41 | an absent or empty code reads as 0, any other is parsed |
| Notifications.BuildFilter | src/controllers/notifications.controller.ts:45-80 | an unknown level is exactly the refused case; otherwise the level switch's alternatives replace the expiry alternatives, none of which survive |
| Notifications.AudienceRule | src/controllers/notifications.controller.ts:56-80 | the store query selects exactly the active notifications the audience rule gives: a SCHOOL user by the schools flag or a listed school, BLOCK and DISTRICT users by their flag or listed code, STATE users by the states flag only |
| Notifications.ExpiryNotApplied | src/controllers/notifications.controller.ts:45-58 | whether a notification is listed does not depend on its expiry, so expired ones are listed |
| Notifications.Window | src/controllers/notifications.controller.ts:93-105 | at most limit elements, exactly those from the offset on, and as many as remain when fewer |
| Notifications.PageHolds | src/controllers/notifications.controller.ts:35-37 | every element appears on the page its position gives |
| Notifications.PageCount | src/controllers/notifications.controller.ts:125 | the page count is the least number of pages of limit rows holding the total |
| Notifications.PageListing | src/controllers/notifications.controller.ts:93-125 | the page's rows are the shown notifications from the offset on, each marked read exactly when the user has a read record, with the total and the page count |
| Notifications.PageArgs | src/controllers/notifications.controller.ts:35-37 | page and limit default to 1 and 20 and are accepted exactly when both parse and give a non-negative offset and limit |
| Notifications.ListOutcome | src/controllers/notifications.controller.ts:22-140 | an unknown level is exactly the 400; with a known level an unusable page or limit is exactly the 500 and usable ones always succeed, with the page of the notifications passing the audience and unread filters |
| Notifications.PageOfUnread | src/controllers/notifications.controller.ts:111-115 | a page of notifications the user has not read shows only unread rows |
| Notifications.UnreadOnlyListsUnread | src/controllers/notifications.controller.ts:83-91 | with unreadOnly and a user id every listed notification is unread |
| Notifications.StatsOutcome | src/controllers/notifications.controller.ts:318-399 | an unknown level is exactly the 400 and a known one always succeeds; the total counts the audience, unread those the user has no record for, read is total minus unread and equals the audience's read ones, urgent is exactly the audience's URGENT ones and never exceeds the total |
| Notifications.StatsUnreadIsUnreadListing | src/controllers/notifications.controller.ts:355-377 | the unread count equals the total of the unread-only listing |
| Notifications.TargetLevels | src/controllers/notifications.controller.ts:176-199 | the levels addressed are exactly those whose flag is set |
| Notifications.TargetsAllowedByRank | src/controllers/notifications.controller.ts:176-199 | a sender below STATE may address only levels below its own |
| Notifications.SenderProfile | src/controllers/notifications.controller.ts:163-173 | a sender is accepted exactly when its upper-cased level is STATE, DISTRICT or BLOCK |
| Notifications.NotificationId | src/controllers/notifications.controller.ts:14-19 | the id is NOT-, the clock's digits, a dash, then the random fragment |
| Notifications.NotificationIdsDiffer | src/controllers/notifications.controller.ts:14-19 | ids made at different milliseconds differ whatever the random fragments |
| Notifications.SendOutcome | src/controllers/notifications.controller.ts:143-249 | a refused sender is exactly the 403, then forbidden targets exactly the 400, then a missing title or message exactly the other 400, and an allowed sender and targets with both texts always succeed; a success appends one active notification with the given fields (title, message, sender, targets, the specific school, block and district lists, the expiry when truthy), type and priority defaulting to INFO and MEDIUM |
| Notifications.SendKeepsIdsUnique | src/controllers/notifications.controller.ts:211-231 | sending with a fresh id keeps ids distinct |
| Notifications.MarkReadOutcome | src/controllers/notifications.controller.ts:252-315 | missing user fields are exactly the 400, an unknown notification the 404, and with both fields an existing notification always succeeds; a success leaves the user with a read record for it, renews readAt to now when the record existed, keeps every other record, and adds one only when none existed |
| Notifications.MarkReadTwice | src/controllers/notifications.controller.ts:283-298 | the upsert keeps one record per notification and user, and repeating it changes nothing |
| Notifications.IfTruthy | src/controllers/notifications.controller.ts:433-443 | a text field is given exactly when truthy |
| Notifications.Edited | src/controllers/notifications.controller.ts:433-443 | title, message, type, priority and expiry are overwritten only by truthy values, isActive by any boolean, nothing else |
| Notifications.ApplyChanges | src/controllers/notifications.controller.ts:433-443 | the update data assembled field by field is the edited notification |
| Notifications.EditNeverClears | src/controllers/notifications.controller.ts:433-443 | an update never clears an expiry and never empties the title or message |
| Notifications.UpdateOutcome | src/controllers/notifications.controller.ts:402-461 | an unknown id is exactly the 404, a different sender exactly the 403, both changing nothing, and the same sender always succeeds; a success replaces only that notification by its edited form |
| Seqs.RemoveAt | src/controllers/notifications.controller.ts:494-496 | the table without position k, everything else in order (also the requisition delete) |
| Notifications.DeleteOutcome | src/controllers/notifications.controller.ts:464-513 | an unknown id is exactly the 404, a different sender exactly the 403, and the same sender always succeeds; a success removes that notification's position (its read records go with it, see NotificationStore.Delete) |
| Notifications.DeleteRemovesExactly | src/controllers/notifications.controller.ts:494-496 | a delete removes exactly the notification with the id, keeps every other and keeps ids distinct |
| Notifications.SenderlessIsLocked | src/controllers/notifications.controller.ts:423-431 | a notification stored without a sender can be neither updated nor deleted |
| Notifications.NotificationStore.IndexOf | src/controllers/notifications.controller.ts:268-280 | the scan finds what FindId specifies |
| Notifications.NotificationStore.IndexOfRead | src/controllers/notifications.controller.ts:283-298 | the scan finds what FindRead specifies |
| Notifications.NotificationStore.List | src/controllers/notifications.controller.ts:22-140 | the reply is ListOutcome on the tables |
| Notifications.NotificationStore.Send | src/controllers/notifications.controller.ts:143-249 | the reply and new table are those of SendOutcome; read records untouched; every read record still points at a notification |
| Notifications.NotificationStore.MarkRead | src/controllers/notifications.controller.ts:252-315 | the reply and new read records are those of MarkReadOutcome; notifications untouched; every read record still points at a notification |
| Notifications.NotificationStore.Update | src/controllers/notifications.controller.ts:402-461 | the reply and new table are those of UpdateOutcome; read records untouched; every read record still points at a notification |
| Notifications.NotificationStore.Delete | src/controllers/notifications.controller.ts:464-513 | the reply and new table are those of DeleteOutcome; on success the deleted notification's read records are removed with it and the others kept in order, otherwise the records are untouched; every read record still points at a notification |
| Notifications.CascadeReads | src/controllers/notifications.controller.ts:494-496 | the read records left by a delete are exactly those of other notifications, and at most one per notification and user remains |
| Notifications.SendKeepsResolve | src/controllers/notifications.controller.ts:209-231 | a send with a fresh id keeps every read record pointing at a notification, and no one has read the new notification |
| Notifications.MarkReadKeepsResolve | src/controllers/notifications.controller.ts:268-305 | a read record is only written for a stored notification |
| Notifications.UpdateKeepsResolve | src/controllers/notifications.controller.ts:433-449 | an update keeps every read record pointing at a notification |
| Notifications.DeleteKeepsResolve | src/controllers/notifications.controller.ts:494-496 | after a delete with its records removed, no read record points at the deleted notification or any other missing one |
| Seqs.FilterPairwise | src/controllers/notifications.controller.ts:494-496 | filtering keeps relative order, so a relation between every earlier and later element survives it |
| Profiles.ProfileOf | src/controllers/requisition-window.controller.ts:80-88 | a string names a profile type exactly when it is one of the type names, and then that type |
| Windows.FindKind | src/controllers/requisition-window.controller.ts:104-107 | the window of the type, and None exactly when the table has none |
| Windows.FindId | src/controllers/requisition-window.controller.ts:158-161 | the window with the id, and None exactly when the table has none |
| Windows.UpsertOutcome | src/controllers/requisition-window.controller.ts:65-152 | a falsy type or a missing date is exactly the first 400, an unknown type exactly the next; then an unparsable date is exactly the 500 and a start not before the end exactly the 400 on date order, and a start before the end always succeeds; a success reports 201 with a window of that type holding the new dates, active, overwriting the existing window of that type under its own id or appending one under the new id, keeping every window of another type; every error leaves the table unchanged |
| Windows.UpsertKeepsValid | src/controllers/requisition-window.controller.ts:93-119 | the table keeps one window per type, each starting strictly before it ends, and after a success the type's only window is the one reported |
| Windows.DeactivateOutcome | src/controllers/requisition-window.controller.ts:154-177 | an unknown id is exactly the 500 case and a known one always succeeds; only that window changes, and only its isActive, to false |
| Windows.DeactivateKeepsValid | src/controllers/requisition-window.controller.ts:158-161 | deactivating keeps the table valid |
| Windows.FindActive | src/controllers/requisition-window.controller.ts:193-198 | an active window of the type, and None exactly when the type has no active window |
| Windows.StatusOutcome | src/controllers/requisition-window.controller.ts:179-241 | an unknown type is exactly the 400 and a known one always answers 200; no active window gives the no-window answer; otherwise isOpen iff start <= now <= end, hasStarted iff now >= start, hasEnded iff now > end, and the message chosen open, then ended, then not started |
| Windows.StatusPhases | src/controllers/requisition-window.controller.ts:210-228 | isOpen iff started and not ended, never ended without having started, the not-started message exactly before the start and the ended message exactly after the end |
| Windows.DeactivatedIsClosed | src/controllers/requisition-window.controller.ts:158-208 | after deactivating a window its type has no window in the status check |
| Windows.UpsertThenStatus | src/controllers/requisition-window.controller.ts:104-213 | after an upsert the type's status shows the new window, open exactly between the new dates |
| Windows.WindowStore.IndexOfKind | src/controllers/requisition-window.controller.ts:104-107 | the scan finds what FindKind specifies |
| Windows.WindowStore.IndexOf | src/controllers/requisition-window.controller.ts:158-161 | the scan finds what FindId specifies |
| Windows.WindowStore.Upsert | src/controllers/requisition-window.controller.ts:65-152 | the reply and new table are those of UpsertOutcome on the old table, and the table stays valid |
| Windows.WindowStore.Deactivate | src/controllers/requisition-window.controller.ts:154-177 | the reply and new table are those of DeactivateOutcome on the old table, and the table stays valid |
| EChallan.LastSix | src/controllers/echallan.controller.ts:110 | the last six characters of the clock's text, or all of it when shorter |
| EChallan.LastSixValue | src/controllers/echallan.controller.ts:110 | for a clock of at least six digits the tail is six digits whose value is the clock modulo 1000000 |
| EChallan.ChallanIdLayout | src/controllers/echallan.controller.ts:105-112 | the id is 19 characters: "ECH-", four year digits, two month digits, two day digits, "-", then six digits reading back as the clock modulo 1000000 |
| EChallan.Count | src/controllers/echallan.controller.ts:117-158 | an absent or non-numeric count is 0, a numeric one its value |
| EChallan.LineOf | src/controllers/echallan.controller.ts:150-162 | a stored line holds the parsed counts, and its total quantity is boxes + packets + loose boxes |
| EChallan.QuantityIgnoresBooks | src/controllers/echallan.controller.ts:159-162 | the number of books never changes a line's total quantity |
| EChallan.LinesOf | src/controllers/echallan.controller.ts:149-163 | one stored line per body line, in order |
| EChallan.TotalsAgree | src/controllers/echallan.controller.ts:120-162 | the challan's box, packet and loose-box totals equal the sums over the stored lines, and the lines' total quantities add up to their sum |
| EChallan.CreateOutcome | src/controllers/echallan.controller.ts:93-190 | a body without lines, or with a line whose book is not in the store, is exactly the 500 case and changes nothing, and any other body succeeds; a success appends one challan and its lines, every new line naming a known book, with the formatted id, totalBooks the number of lines and the other totals the sums of the stored counts, undelivered |
| EChallan.FindId | src/controllers/echallan.controller.ts:203-205 | the first challan with the id, and None exactly when none has it |
| EChallan.StatusChanged | src/controllers/echallan.controller.ts:197-201 | status is always written when given; deliveredAt changes only for DELIVERED with a date, and an invalid date fails; nothing else changes |
| EChallan.StatusOutcome | src/controllers/echallan.controller.ts:192-230 | an unknown id or an invalid delivery date is a 500 with the table unchanged, and a known id with a valid change always succeeds; a success replaces exactly that challan by its changed form |
| EChallan.ChallanStore.IndexOf | src/controllers/echallan.controller.ts:203-205 | the scan finds what FindId specifies |
| EChallan.ChallanStore.AllBooksKnown | src/controllers/echallan.controller.ts:149-163 | the scan reports exactly whether every line names a book of the store |
| EChallan.ChallanStore.constructor | src/controllers/echallan.controller.ts:93-190 | a new store is empty and keeps the given books and initial status |
| EChallan.ChallanStore.Create | src/controllers/echallan.controller.ts:93-190 | the reply and both new tables are those of CreateOutcome on the old tables |
| EChallan.ChallanStore.UpdateStatus | src/controllers/echallan.controller.ts:192-230 | the reply and new challan table are those of StatusOutcome; the lines are untouched |
| EChallan.ChallanStore.Delete | src/controllers/echallan.controller.ts:232-260 | every line of the challan is removed first, even when the challan is then not found (500); a found challan is removed and nothing else |
| Requisitions.FindReq | src/controllers/requisitions.controller.ts:186-189 | the first requisition with the id, and None exactly when none has it |
| Requisitions.NewRequisition | src/controllers/requisitions.controller.ts:126-134 | a new requisition has received 0, status PENDING, no remarks and the given fields |
| Requisitions.CreateOutcome | src/controllers/requisitions.controller.ts:112-168 | a falsy schoolId, bookId, quantity or reqId is exactly the 400 case, so quantity 0 is refused; with all four given, an unknown school or book is exactly the 500 and known ones always succeed; a success appends exactly the new requisition; errors change nothing |
| Requisitions.Patched | src/controllers/requisitions.controller.ts:176-184 | each field present in the body is written, every other field keeps its stored value, the ids never change |
| Requisitions.PatchedNothing | src/controllers/requisitions.controller.ts:176-184 | an empty body changes nothing |
| Requisitions.UpdateOutcome | src/controllers/requisitions.controller.ts:170-224 | an unknown id is exactly the 500 case and changes nothing; a success replaces exactly that requisition by its patched form |
| Requisitions.UpdateUnchecked | src/controllers/requisitions.controller.ts:176-199 | any quantity, received count and status are written as given: no bound of received against quantity and no status rule |
| Requisitions.UpdateTouchesOne | src/controllers/requisitions.controller.ts:186-190 | an update keeps the table's length and ids and every other requisition |
| Requisitions.DeleteOutcome | src/controllers/requisitions.controller.ts:226-250 | an unknown id is exactly the 500 case; otherwise the requisition's position is removed |
| Requisitions.DeleteRemovesExactly | src/controllers/requisitions.controller.ts:230-234 | with distinct ids, the requisition is gone, every other one remains and none is added |
| Requisitions.AllRequisitions | src/controllers/requisitions.controller.ts:5-30 | exactly the requisitions matching each non-empty parameter; with neither parameter, the whole table |
| Requisitions.BySchool | src/controllers/requisitions.controller.ts:252-260 | exactly the requisitions of the school |
| Requisitions.BySchoolIsListing | src/controllers/requisitions.controller.ts:256-258 | for a non-empty school id, the by-school list equals the general listing filtered on it |
| Requisitions.ByBlock | src/controllers/requisitions.controller.ts:298-307 | an unparsable block code is exactly the 500 case; otherwise exactly the requisitions whose school lies in the block |
| Requisitions.ByBlockFindsSchool | src/controllers/requisitions.controller.ts:302-307 | a requisition is listed under its school's block code |
| Requisitions.RequisitionStore.IndexOf | src/controllers/requisitions.controller.ts:186-189 | the scan finds what FindReq specifies |
| Requisitions.RequisitionStore.Create | src/controllers/requisitions.controller.ts:112-168 | the reply and new table are those of CreateOutcome, and ids stay distinct |
| Requisitions.RequisitionStore.Update | src/controllers/requisitions.controller.ts:170-224 | the reply and new table are those of UpdateOutcome, and ids stay distinct |
| Requisitions.RequisitionStore.Delete | src/controllers/requisitions.controller.ts:226-250 | the reply and new table are those of DeleteOutcome, and ids stay distinct |
| Seed.SplitOn | prisma/seed.ts:51 | `split` always yields at least one piece and no piece holds the separator |
| Seed.SplitJoin | prisma/seed.ts:51 | joining the pieces back with the separator gives the line again |
| Seed.RawFields | prisma/seed.ts:19-32 | the splitter always yields at least one field |
| Seed.Fields | prisma/seed.ts:25-32 | every field of `parseCSVLine` is the trimmed raw field |
| Seed.ReadQuote | prisma/seed.ts:22-23 | a quote only toggles the quoting state |
| Seed.ReadComma | prisma/seed.ts:24-26 | an unquoted comma closes the current field, trimmed |
| Seed.ReadOther | prisma/seed.ts:27-28 | any other character, or a quoted comma, extends the current field |
| Seed.ReadDone | prisma/seed.ts:32 | pushing the last trimmed field completes the specified fields |
| Seed.ParseCsvLine | prisma/seed.ts:14-34 | the character loop yields exactly the specified fields |
| Seed.Unquoted | prisma/seed.ts:22-23 | the line without its quote characters holds no quote |
| Seed.RawFieldsSpec | prisma/seed.ts:19-32 | the number of fields is the number of unquoted commas + 1, no field holds a quote, and the fields joined with commas give the line without its quotes |
| Seed.UnquotedIsSplit | prisma/seed.ts:14-34 | on a line without quotes the splitter agrees with plain `split(",")` |
| Seed.FieldsClean | prisma/seed.ts:22-32 | every field is quote-free and already trimmed |
| Seed.CollapseRuns | prisma/seed.ts:55-56 | no two replacements are adjacent when the replacement is in the class; a first or last character in the class becomes the replacement, one outside it is kept; a single character maps to the replacement or itself |
| Seed.CollapseKeeps | prisma/seed.ts:55-59 | when the replacement is in the class, every character outside the class is kept, in order, and none is added |
| Seed.CollapseRun | prisma/seed.ts:55-59 | a non-empty run of class characters becomes exactly one replacement |
| Seed.CollapseSplit | prisma/seed.ts:55-59 | collapsing distributes over a cut that falls outside a run, which with the run and single-character cases fixes the result on every input |
| Seed.CollapseSnoc | prisma/seed.ts:55-59 | one more character adds nothing when it continues a run, one replacement when it starts one, and itself when it is outside the class |
| Seed.BlockName | prisma/seed.ts:59 | the block name holds only plain spaces as white space, never two in a row, and none at either end; it is empty exactly when the trimmed column is, and its other characters are those of the trimmed column, in order |
| Seed.DistrictNameShape | prisma/seed.ts:53-57 | a normalised district name has no white space, no lower-case letter and no double underscore, so it is in enum form |
| Seed.CollapsedNoSpace | prisma/seed.ts:55-56 | after both collapses no white space and no double underscore remain |
| Seed.UpperKeepsShape | prisma/seed.ts:57 | upper-casing keeps that shape and leaves no lower-case letter |
| Seed.BlockOfLine | prisma/seed.ts:51-59 | a line yields a block exactly when it has at least four comma-split columns; the block's code is the trimmed third column, its name the block name of the fourth, its district the normalised second |
| Seed.LineBlocks | prisma/seed.ts:46-59 | the blocks number exactly the lines that have four columns |
| Seed.LineBlocksAppend | prisma/seed.ts:46-59 | two stretches of lines give their blocks one after the other |
| Seed.LineBlocksFlat | prisma/seed.ts:46-59 | the blocks are the flat map of the lines by their block |
| Seed.LineBlocksMembers | prisma/seed.ts:46-59 | a block is found exactly when some line names it |
| Seed.Visit | prisma/seed.ts:60-64 | a block is recorded exactly when its key is new, and the seen set stays the set of recorded keys |
| Seed.BlocksUpToRows | prisma/seed.ts:46-65 | the blocks of the lines after the header up to i are the blocks of those rows |
| Seed.PassLines | prisma/seed.ts:46-65 | the loop keeps the recorded blocks equal to the first occurrences of every key seen so far |
| Seed.Pass | prisma/seed.ts:46-65 | one pass records the first occurrence of each new key, in order, skipping the header |
| Seed.ExtractBlocks | prisma/seed.ts:36-93 | both passes together give one block per distinct key in order of first appearance; the second pass adds nothing |
| Seed.RowSchools | prisma/seed.ts:190-203 | a line contributes one school exactly when accepted |
| Seed.ValidSchools | prisma/seed.ts:155-226 | at most one school per line |
| Seed.RowsPartition | prisma/seed.ts:155-226 | every line is exactly one of skipped blank, error, or school |
| Seed.RowOf | prisma/seed.ts:156-200 | a line is blank exactly when it trims to nothing; a non-blank line is rejected exactly when it has fewer than nine fields, an unreadable district or block code, or an empty or unreadable UDISE; an accepted row holds the codes and UDISE read from fields 0, 2 and 4 |
| Seed.AcceptedFields | prisma/seed.ts:190-200 | an accepted row's text fields are the split fields, quote-free, so the cleaning changes nothing |
| Seed.FlattenSnoc | prisma/seed.ts:206-217 | a written batch extends the written schools by its contents |
| Seed.FullBatches | prisma/seed.ts:206-217 | full batches hold 100 schools each |
| Seed.PushSchool | prisma/seed.ts:202-217 | pushing a school appends it to the schools written or pending, flushing a batch of exactly 100 when full |
| Seed.FinalBatch | prisma/seed.ts:229-235 | the partial batch is written only when non-empty; then every batch but the last is full and the batch count is the school count divided by 100, rounded up |
| Seed.Tally | prisma/seed.ts:172-203 | a row adds its school to the batches and counts, or one error |
| Seed.ImportLine | prisma/seed.ts:155-226 | one loop step adds the line's school or error |
| Seed.UpToRows | prisma/seed.ts:155-226 | the schools and errors of the lines up to i are those of the rows after the header |
| Seed.ReadEach | prisma/seed.ts:155-226 | the loop keeps the written and pending schools equal to the accepted schools so far, and counts them and the errors |
| Seed.ReadLines | prisma/seed.ts:155-226 | after the loop the written and pending schools are exactly the accepted schools of the lines after the header |
| Seed.Import | prisma/seed.ts:124-235 | every accepted school lands in exactly one batch in file order, every batch but the last holds 100, and the counters are the numbers of schools and of errors |
| Text.Trim | prisma/seed.ts:25 | trimming removes white space from both ends only: the result is a slice of the input, everything cut off is white space, and it neither starts nor ends with white space |
| Text.TrimmedPart | prisma/seed.ts:25 | trimming adds no character and is idempotent |
| Text.Upper | prisma/seed.ts:57 | upper-casing maps each character and keeps the length |
| Text.Contains | src/controllers/reports.controller.ts:110 | `includes` holds exactly when the text appears at some position |
| Text.DecimalString | src/controllers/issues.controller.ts:153 | the decimal rendering is digits reading back as the number, with no leading zero |
| Text.PadStart | src/controllers/issues.controller.ts:153 | padding puts fill characters in front up to the width and keeps the text at the end |
| Text.ZeroPadded | src/controllers/echallan.controller.ts:108-109 | a zero-padded number is at least the width long and reads back as the number |
| Text.ParseIntDigits | src/controllers/blocks.controller.ts:60 | parseInt of a digit string gives its value |
| Text.ParseIntString | src/controllers/blocks.controller.ts:28-60 | parsing the decimal text of any integer gives it back |
| Seqs.DedupBy | prisma/seed.ts:60-64 | nothing new, every key kept, no key twice; with DedupByFront, the first element of each key in input order |
| Seqs.DedupBySeen | prisma/seed.ts:88-92 | elements whose keys were already seen add nothing |
| Seqs.DedupByTwice | prisma/seed.ts:67-93 | de-duplicating a sequence followed by itself gives the de-duplication of the sequence |
| Seqs.KeySetFilterOut | prisma/seed.ts:60-64 | dropping the elements with one key drops exactly that key |
| Seqs.DedupBySnoc | prisma/seed.ts:60-64 | one more element at the end is kept exactly when its key is new |
| Seqs.DedupByFirst | prisma/seed.ts:60-64 | de-duplication keeps the first element and drops every later one with its key |
| Seqs.DedupByFront | prisma/seed.ts:60-64 | de-duplication agrees on every input with the front reading: the first element of each key, in input order |
| Seqs.FlatMapMembers | prisma/seed.ts:46-59 | every piece of every element is in the flattened result, and nothing else |
| Seqs.Dedup | src/controllers/districts.controller.ts:8-13 | the distinct values, each once, none new |
| Backlog.FindKey | src/controllers/backlog.controller.ts:66-72 | the first entry with the (book, type, user) combination, and None exactly when no entry has it |
| Backlog.FindId | src/controllers/backlog.controller.ts:110-111 | the entry with the id, and None exactly when no entry has it |
| Backlog.CreateOutcome | src/controllers/backlog.controller.ts:59-101 | a falsy book, type or user or a missing quantity is exactly the 400 case; an existing combination gets the new quantity in place (200), otherwise one entry with the fresh id is appended (201); with all fields given, an existing combination or a known book always succeeds; every error leaves the table unchanged |
| Backlog.CreateKeepsUnique | src/controllers/backlog.controller.ts:65-97 | creation with a fresh id keeps ids distinct, and keeps at most one entry per combination when the table had that |
| Backlog.CreateTwice | src/controllers/backlog.controller.ts:65-97 | repeating the same creation leaves the table as the first creation left it |
| Backlog.Edited | src/controllers/backlog.controller.ts:112-117 | book, type and user are overwritten only by truthy values, quantity by any present value, the id never |
| Backlog.UpdateOutcome | src/controllers/backlog.controller.ts:105-127 | an unknown id fails with 500 and changes nothing; for a known id the update succeeds exactly when no new book is given or the new book is in the store; a success replaces exactly that entry by its edited form, and distinct ids stay distinct |
| Backlog.DeleteOutcome | src/controllers/backlog.controller.ts:130-142 | an unknown id is exactly the 500 case and a known one always answers the deletion message; a success removes one entry, keeps every other entry and adds none, and with distinct ids no entry with that id remains |
| Backlog.AllEntries | src/controllers/backlog.controller.ts:8-22 | exactly the entries matching each non-empty parameter; with neither parameter, the whole table |
| Backlog.EntriesByType | src/controllers/backlog.controller.ts:147-161 | exactly the entries of the path's type, and of the user when one is given |
| Backlog.ByTypeIsListing | src/controllers/backlog.controller.ts:10-12 | for a non-empty type the by-type listing equals the general listing filtered on that type |
| Backlog.BacklogStore.FirstWithKey | src/controllers/backlog.controller.ts:66-72 | the scan finds what FindKey specifies |
| Backlog.BacklogStore.IndexOf | src/controllers/backlog.controller.ts:110-111 | the scan finds what FindId specifies |
| Backlog.BacklogStore.constructor | src/controllers/backlog.controller.ts:57-103 | a new store is empty, keeps the given books and is valid |
| Backlog.BacklogStore.Create | src/controllers/backlog.controller.ts:57-103 | the reply and new table are those of CreateOutcome on the old table, and ids stay distinct |
| Backlog.BacklogStore.Update | src/controllers/backlog.controller.ts:105-128 | the reply and new table are those of UpdateOutcome on the old table, and ids stay distinct |
| Backlog.BacklogStore.Delete | src/controllers/backlog.controller.ts:130-143 | the reply and new table are those of DeleteOutcome on the old table; ids stay distinct and none is the deleted id |
| Directory.TitleCase | src/controllers/districts.controller.ts:39 | the first letter of every word is upper-cased and every other character is kept, the length unchanged |
| Directory.DisplayName | src/controllers/districts.controller.ts:36-39 | the displayed name has the enum's length, no underscore, a space exactly where the enum had an underscore or a space, and every other character kept or upper-cased |
| Directory.EnumName | src/controllers/districts.controller.ts:72 | the enum form has the name's length, no space and no lower-case letter |
| Directory.EnumOfDisplay | src/controllers/districts.controller.ts:36-72 | converting a displayed district name back gives the original upper-case enum |
| Directory.DisplayIdempotent | src/controllers/districts.controller.ts:99-101 | formatting an already displayed name again changes nothing |
| Directory.BlocksOf | src/controllers/districts.controller.ts:18-21 | exactly the blocks of the district, each one from the table |
| Districts.Summary | src/controllers/districts.controller.ts:40-45 | a block's entry carries its code as a decimal id |
| Districts.Summaries | src/controllers/districts.controller.ts:40-45 | one entry per block, in order |
| Districts.DistrictsIn | src/controllers/districts.controller.ts:8-13 | the distinct districts: no repeats, every block's district present, every listed district held by some block |
| Districts.EntryFor | src/controllers/districts.controller.ts:35-46 | a district's entry has the raw enum as id |
| Districts.AllDistricts | src/controllers/districts.controller.ts:5-48 | one entry per distinct district, ids never repeated, each entry built from a district some block has |
| Districts.AllDistrictsCover | src/controllers/districts.controller.ts:8-16 | every block's district has its entry in the listing |
| Districts.DistrictById | src/controllers/districts.controller.ts:67-108 | 404 exactly when no block has the parameter's enum form; otherwise 200 with the enum form as id, the name formatted from the raw parameter and the summaries of that district's blocks |
| Districts.LookupListedByName | src/controllers/districts.controller.ts:36-108 | looking up a listed district by its shown name gives back the same entry |
| Blocks.View | src/controllers/blocks.controller.ts:27-35 | the id parses back to the block's code, the district is the displayed form, name and phone are kept |
| Blocks.DistrictFilter | src/controllers/blocks.controller.ts:9-14 | a filter exists exactly when the query is truthy, and it is the query's enum form |
| Blocks.Views | src/controllers/blocks.controller.ts:27-35 | one view per block, in order |
| Blocks.ViewsOfSelected | src/controllers/blocks.controller.ts:16-35 | the views of a filtered table are exactly the views of the selected blocks |
| Blocks.AllBlocks | src/controllers/blocks.controller.ts:5-44 | without a query every block in table order; with one, exactly the views of the blocks the filter selects |
| Blocks.ListByShownDistrict | src/controllers/blocks.controller.ts:9-32 | listing by the district a block is shown with returns that block, and only blocks shown with the same district |
| Blocks.FindCode | src/controllers/blocks.controller.ts:58-61 | the first block with the code, and None exactly when no block has it |
| Blocks.BlockById | src/controllers/blocks.controller.ts:54-112 | an unparsable id is a 500; a parsed code no block has is exactly the 404; otherwise 200 with that block's view |
| Blocks.LookupByShownId | src/controllers/blocks.controller.ts:28-92 | with unique codes, looking a block up by the id it is shown with returns its view |
| Blocks.PasswordUpdate | src/controllers/blocks.controller.ts:125-167 | a falsy password is exactly the 400 case and an unknown code a 500, both leaving the table unchanged, and a known code with a password always succeeds; a success changes only that block's password |
| Blocks.PasswordUpdateKeepsViews | src/controllers/blocks.controller.ts:140-147 | a password update changes nothing any block shows and keeps codes unique |
| Blocks.BlockStore.IndexOfCode | src/controllers/blocks.controller.ts:58-61 | the scan finds what FindCode specifies |
| Blocks.BlockStore.UpdatePassword | src/controllers/blocks.controller.ts:125-167 | the reply and new table are those of PasswordUpdate on the old table |

## Left out

- Requisition approval, rejection and timeline: the routes name these handlers, but their bodies are not part of this model. No transition, no `received <= quantity` check and no timeline rule is invented for them.
- src/controllers/books.controller.ts, src/controllers/stock.controller.ts and src/controllers/schools.controller.ts are not part of this model. They are pass-through CRUD with trivial required-field checks.
- Routing, middleware, authentication and sessions are not part of this model: the Hono wiring and the better-auth library.
- Prisma `include` joins and `orderBy`. Tables keep insertion order, so listings come back in table order, not sorted by date or priority.
- Store failures other than a missing record or an invalid value: connection loss and unique-constraint violations. Every `catch` branch is modelled only where a missing id, an unparsable number or an invalid date reaches it. A store that fails in other ways would answer 500 and change nothing.
- Floating point: fulfilment and completion rates are kept as an exact `Fraction` (numerator and denominator), without `toFixed(1)` rounding. The zero-denominator guard is modelled exactly.
- Dates: `new Date(x)` is abstracted as an optional millisecond time, `None` when invalid. `lastActivity` is that time, not its ISO date text.
- `parseInt` is modelled as JavaScript reads text without a radix: leading white space is skipped, then an optional sign, then the longest run of decimal digits, or of hexadecimal digits after `0x`; the rest is ignored. `BigInt` is modelled for signed decimal and `0x` forms; its `0o` and `0b` forms are not.
- Text.Upper: `toUpperCase` is modelled for the ASCII letters a-z only. Other letters keep their case, and letters that grow when upper-cased (such as `ß` to `SS`) are not modelled, so `Notifications.ParseProfile`, `Notifications.SenderProfile`, the district names of `Directory` and `Reports`, and `Seed.DistrictName` may read such text differently from JavaScript. `Text.Trim` and `Text.IsSpace` cover the full set of characters JavaScript's `trim` and `\s` treat as white space.
- Notifications.SendOutcome: only the upper-cased sender level is checked; `sentFrom`, `type` and `priority` are stored as given. The enums of the store (`ProfileType`, `NotificationType`, `NotificationPriority`) are not part of this model, so a value outside them (`sentFrom = "block"`, say) is a success in the model where the store would reject it and the handler would answer 500. `Notifications.UpdateOutcome` stores `type` and `priority` the same way.
- Notifications.MarkReadOutcome: `userLevel` is stored as given; a value outside the store's `ProfileType` enum is a success in the model where the store would reject it and the handler would answer 500.
- The schema of the store is not part of this model. Deleting a notification is modelled as removing its read records with it (a cascading relation), which `Notifications.NotificationStore.Delete` states. Under a restricting relation, deleting a notification that someone has read would fail and answer 500 instead.
- District names are not checked against the district enum. Where the handlers pass a converted district name to an enum column (`Districts.DistrictById`, the district filters of `Blocks.AllBlocks`, `Reports.RawFilter` and `Reports.DetailFilter`), a name outside the enum gives the model's 404 or empty list, where the store would reject the value and the handler would answer 500. The district enum itself is not part of this model.
- Notifications.PageArgs: a negative limit is answered with the 500 of a failed query. The store reads a negative `take` as counting back from the end of the list; that reading, and the page count it would give, are not modelled.
- JSON body numbers are taken as already-parsed integers, so `parseInt(quantity)` on a numeric body field is the identity. A `received` or `quantity` sent as a non-numeric string is not modelled.
- JavaScript `null` and `undefined` are both `None`. `Notifications.SameSender` therefore refuses a stored sender of `null` even when the body's `sentBy` is also `null`.
- Status strings are not validated against their enums: the handlers pass them to the store, and the model stores them as given.
- `Promise.all` in the summaries and the district listing is modelled as sequential reads over one unchanging table.
- prisma/seed.ts I/O: reading the file, readline streams, console logging and the database writes of blocks and schools. Both passes of `extractBlocks` are modelled over the same list of lines. The un-awaited call at prisma/seed.ts:135, which races with the school deletion, is not modelled. A `createMany` failure, which the loop would count as an error, is not modelled.
- Seed.ExtractBlocks: the block upsert into the store (prisma/seed.ts:95-115) is not modelled; the method ends with the list of blocks to write.
- Randomness and the clock are parameters: `Math.random` in the notification id, `Date.now` and `new Date()` (the `lastUpdated` date of the district-wise rows is the `today` parameter of `Reports.DistrictRowFor`).
- Fresh record ids (Prisma's `cuid`) are parameters. Where a table keeps its ids distinct, creating a record requires that the new id is not yet in the table.
