# CRM core, modelled in Dafny

This project models the core of a small CRM for a sales and production team.
Clients move through an assignment workflow:
- a sales manager creates a client;
- an administrator or a project manager assigns it to a specialist;
- the specialist acknowledges the assignment, and the client goes into work.

Creating, archiving, assigning and acknowledging a client, and changing its status, each add a row to an append-only audit trail; recording a payment or a comment does not. Payments are recorded per client and per calendar month. A payment is flagged as a renewal or not. A monthly renewal report lists the renewals of one month. Each role has a personal dashboard of its month's clients.

The model follows the NestJS services one by one:
- `ClientsService`, `PaymentsService`, `AuditService` and `CommentsService` are classes.
  - Each database table is a `seq` field that the methods reassign.
  - Clients are rows indexed by their id.
  - `ClientsService` and `PaymentsService` have a `Valid()` invariant that their methods preserve; the audit trail and the comments are plain append-only tables.
- The read-only `DashboardService` is made of pure functions.
- The request DTOs are predicates over a JSON value. Each has a parser that is proved equivalent to its decorators and a round-trip through an encoder.
- The `PaymentsController` adds a role guard and a month check in front of the service.
- The front end's renewal-report route handler is a method proved equal to a reference function. It has its own role gate, month check and specialist scoping.
- The front end's key-case converters walk a JSON value recursively; their object loop is a method with an invariant.

Time values are integer milliseconds, as in ECMAScript. The dashboard's month window is built with ECMA-262's `MakeDay`/`MakeDate`. The renewal date is the `YYYY-MM-DD` part of `toISOString`.

Behaviour worth noting:
- `findById`, `update` and `assign` look the client up first. So a specialist asking for an absent client gets 404, not 403.
- The back end's renewals endpoint refuses a malformed month with a 403 (`ForbiddenException`), not a 400. The front-end handler answers 400.
- The dashboard window is computed in local time. The model takes local time to be UTC.

## Model

| member | source | states |
|---|---|---|
| Common.StatusNameInjective | backend/src/modules/clients/dto/update-client.dto.ts:29-31 | a status is determined by its enum name, and reading the name back gives the status |
| Validators.ReadOptionalString | backend/src/modules/clients/dto/create-client.dto.ts:4-6 | `@IsOptional() @IsString()` accepts exactly absent, null or a string, and yields that string |
| Patterns.MonthTextRoundTrip | backend/src/modules/payments/dto/create-payment.dto.ts:9-12 | every year 0..9999 and month 1..12 has a `YYYY-MM` text that the month pattern accepts and that parses back to them |
| Patterns.ParseMonthTextRoundTrip | backend/src/modules/payments/dto/create-payment.dto.ts:9-12 | every text the month pattern accepts is the text of its parsed year and month, so the pattern accepts exactly those texts |
| Patterns.MonthBoundaries | backend/src/modules/payments/payments.controller.ts:51 | the month pattern refuses month 00 and 13 and accepts 01 and 12 |
| Patterns.PhoneShape | backend/src/modules/clients/dto/create-client.dto.ts:12-14 | an accepted phone is 7 to 21 characters long, and a `+` can only be its first character |
| Patterns.PhoneCharacterization | backend/src/modules/clients/dto/create-client.dto.ts:13 | position by position: a text is accepted exactly when, after an optional leading `+`, 7 to 20 characters remain and each is a digit, a JavaScript space, `-`, `(` or `)` |
| Calendar.MonthWindow | backend/src/modules/dashboard/dashboard.service.ts:15-17 | the window runs from 00:00:00.000 on day 1 to 23:59:59.999 on the month's last day, and spans exactly its Gregorian day count |
| Calendar.NextMonthStart | backend/src/modules/dashboard/dashboard.service.ts:17 | day 1 of the month after m, as `MakeDay` carries December into the next year, is exactly the month's day count after day 1 of m |
| Calendar.DaysInMonthRange | backend/src/modules/dashboard/dashboard.service.ts:17 | a month has 28..31 days, and February has 29 exactly in a leap year |
| Calendar.LeapDayAgrees | backend/src/modules/payments/payments.service.ts:110 | the ISO date calendar and the month-window calendar agree on the leap day 2024-02-29 |
| Calendar.IsoDatePart | backend/src/modules/payments/payments.service.ts:110 | `toISOString().split('T')[0]` is the `YYYY-MM-DD` date of the time value |
| Text.Before | backend/src/modules/payments/payments.service.ts:110 | `split(c)[0]` is the longest prefix without `c`, and it is followed by `c` whenever it is shorter than the text |
| CaseTransform.CamelKey | frontend/lib/utils/case-transform.ts:13 | the camelCase renaming never lengthens a key, and leaves a key without `_` unchanged |
| CaseTransform.SnakeKey | frontend/lib/utils/case-transform.ts:33 | the snake_case renaming leaves no upper-case letter, never shortens a key, and leaves a key without capitals unchanged |
| CaseTransform.SnakeKeyOfCamelKey | frontend/lib/utils/case-transform.ts:1-4 | a snake_case key survives the trip to camelCase and back |
| CaseTransform.CamelKeyOfSnakeKey | frontend/lib/utils/case-transform.ts:21-24 | a camelCase key without underscores survives the trip to snake_case and back |
| CaseTransform.Put | frontend/lib/utils/case-transform.ts:14 | storing a property adds its key, and keeps the keys of an object distinct |
| CaseTransform.AssembleDistinct | frontend/lib/utils/case-transform.ts:11-15 | filling a fresh object with properties whose names differ rebuilds them unchanged, in order |
| CaseTransform.RekeyedShape | frontend/lib/utils/case-transform.ts:6-18 | arrays are converted element by element, objects keep their renamed key set, and primitives, null and dates come back unchanged |
| CaseTransform.RekeyedObject | frontend/lib/utils/case-transform.ts:9-16 | when no renamed keys collide, each property reappears in place under its new name with its value converted |
| CaseTransform.RoundTrip | frontend/lib/utils/case-transform.ts:1-39 | converting a snake_case value to camelCase and back gives it unchanged, so column names stay transparent |
| CaseTransform.Rekey | frontend/lib/utils/case-transform.ts:5-19 | the recursive walk returns the converted value `Rekeyed` |
| CaseTransform.RekeyArray | frontend/lib/utils/case-transform.ts:6-8 | `map` over an array converts each element |
| CaseTransform.RekeyObject | frontend/lib/utils/case-transform.ts:9-16 | the `for ... in` loop fills a fresh object with the renamed, converted properties |
| CaseTransform.SnakeToCamel | frontend/lib/utils/case-transform.ts:5-19 | `snakeToCamel` returns the camelCase conversion of its argument |
| CaseTransform.CamelToSnake | frontend/lib/utils/case-transform.ts:25-39 | `camelToSnake` returns the snake_case conversion of its argument |
| CreateClientDto.ReadAmount | backend/src/modules/clients/dto/create-client.dto.ts:28-32 | the payment amount is accepted exactly when it is absent, null, or a number of at least 0 |
| CreateClientDto.Parse | backend/src/modules/clients/dto/create-client.dto.ts:3-33 | a body parses exactly when every decorator holds; the result is well formed and carries the body's phone and services |
| CreateClientDto.ParseEncode | backend/src/modules/clients/dto/create-client.dto.ts:3-33 | every well-formed client body encodes to a body that validates and parses back to it |
| CreateClientDto.NamesNotRequired | backend/src/modules/clients/dto/create-client.dto.ts:3-22 | the DTO accepts a body with neither name, and it refuses an empty services array |
| CreateClientDto.AcceptedPhoneLength | backend/src/modules/clients/dto/create-client.dto.ts:12-14 | any accepted body's phone is 7 to 21 characters long |
| CreatePaymentDto.Parse | backend/src/modules/payments/dto/create-payment.dto.ts:3-18 | a body parses exactly when amount is an integer of at least 1, month is `YYYY-MM` and isRenewal is a boolean |
| CreatePaymentDto.ParseEncode | backend/src/modules/payments/dto/create-payment.dto.ts:3-18 | every well-formed payment body encodes to a body that validates and parses back to it |
| CreatePaymentDto.AmountBoundary | backend/src/modules/payments/dto/create-payment.dto.ts:4-7 | the amounts 0 and 1.5 are refused and 1 is accepted; `isRenewal: false` passes `@IsNotEmpty` |
| CreatePaymentDto.RequiredFields | backend/src/modules/payments/dto/create-payment.dto.ts:4-16 | a body without amount, month or isRenewal is refused |
| CreatePaymentDto.MonthOutOfRange | backend/src/modules/payments/dto/create-payment.dto.ts:9-12 | the months `2026-00` and `2026-13` are refused |
| DashboardQueryDto.IntOf | backend/src/modules/dashboard/dto/dashboard-query.dto.ts:5 | a value passes `@IsInt` exactly when it is an integral number, which is returned |
| DashboardQueryDto.Parse | backend/src/modules/dashboard/dto/dashboard-query.dto.ts:4-16 | a query parses exactly when year is an integer in 2020..2100 and month an integer in 1..12 |
| DashboardQueryDto.ParseAdmin | backend/src/modules/dashboard/dto/dashboard-query.dto.ts:18-22 | the admin query adds an optional string userId to the same bounds |
| DashboardQueryDto.ParseEncode | backend/src/modules/dashboard/dto/dashboard-query.dto.ts:4-16 | every in-range year and month encodes to a query that parses back to them |
| DashboardQueryDto.ParseEncodeAdmin | backend/src/modules/dashboard/dto/dashboard-query.dto.ts:18-22 | every in-range admin query encodes to a query that parses back to it |
| DashboardQueryDto.AdminKeepsBounds | backend/src/modules/dashboard/dto/dashboard-query.dto.ts:18 | whatever the admin query accepts, the personal query accepts with the same year and month |
| DashboardQueryDto.Boundaries | backend/src/modules/dashboard/dto/dashboard-query.dto.ts:5-13 | the bounds are inclusive: 2020 and 2100 are accepted, while 2019, 2101, month 0 and month 13 are refused |
| UpdateClientDto.ReadPatch | backend/src/modules/clients/dto/update-client.dto.ts:5-6 | an optional string property is accepted exactly when absent (keep), null (clear) or a string (set) |
| UpdateClientDto.Parse | backend/src/modules/clients/dto/update-client.dto.ts:4-32 | a body parses exactly when every decorator holds; a given phone matches the pattern and a given status is an enum value |
| UpdateClientDto.ParseEncode | backend/src/modules/clients/dto/update-client.dto.ts:4-32 | every well-formed update encodes to a body that validates and parses back to it |
| UpdateClientDto.EmptyUpdate | backend/src/modules/clients/dto/update-client.dto.ts:4-32 | the empty body is valid and changes nothing |
| UpdateClientDto.NullPassesValidation | backend/src/modules/clients/dto/update-client.dto.ts:13-14 | `@IsOptional` lets `null` through: a body setting the phone or the status to null validates and asks to clear it |
| Audit.AuditService.Log | backend/src/modules/audit/audit.service.ts:8-17 | one row with exactly the given action, user, client and details is appended, and no existing row changes |
| Audit.ByClient | backend/src/modules/audit/audit.service.ts:19-25 | exactly the rows about the client, each as often as stored, newest first |
| Audit.ByClientAppend | backend/src/modules/audit/audit.service.ts:8-25 | appending a row adds it to its own client's read and to no other client's read |
| Clients.LatestAfterAppend | backend/src/modules/clients/clients.service.ts:212-218 | after a history row is appended, it is its client's latest assignment, and every other client's latest is unchanged |
| Clients.LatestOfUnmentioned | backend/src/modules/clients/clients.service.ts:27-41 | a client that no history row mentions has no latest assignment |
| Clients.NewClient | backend/src/modules/clients/clients.service.ts:27-36 | a new client carries the given names and phone, is created by the caller at `now`, and is unassigned, unacknowledged and not archived |
| Clients.Patched | backend/src/modules/clients/clients.service.ts:141-148 | absent text fields are kept, null clears them and a value replaces them (the contract of `Apply`); a given phone and status replace the stored ones; nothing else changes (assignment and archive flag never do), and an empty body changes nothing |
| Clients.AssignedTo | backend/src/modules/clients/clients.service.ts:198-205 | an assigned client is assigned to the specialist at `now`, ASSIGNED and unacknowledged whatever it was before; nothing else changes |
| Clients.AcknowledgeError | backend/src/modules/clients/clients.service.ts:238-243 | an acknowledgement is allowed exactly for the assignee of an unacknowledged assignment; otherwise Forbidden for a non-assignee, else BadRequest |
| Clients.Acknowledged | backend/src/modules/clients/clients.service.ts:245-251 | an acknowledged client is acknowledged and IN_WORK, and nothing else changes |
| Clients.AcknowledgeOnlyOnce | backend/src/modules/clients/clients.service.ts:231-261 | after a successful acknowledgement every further one is refused: BadRequest for the assignee, Forbidden for anybody else |
| Clients.AssignmentResetsAcknowledgement | backend/src/modules/clients/clients.service.ts:198-205 | after any assignment, exactly the new assignee can acknowledge, whatever the previous state |
| Clients.AssignAction | backend/src/modules/clients/clients.service.ts:220 | the audit action is SPECIALIST_REASSIGNED exactly when the client had an assignee |
| Clients.ClientsService.Create | backend/src/modules/clients/clients.service.ts:20-51 | BadRequest with nothing written when neither name is truthy; otherwise one new client and exactly one CLIENT_CREATED row; the invariant is preserved |
| Clients.ClientsService.FindAll | backend/src/modules/clients/clients.service.ts:53-91 | exactly the stored clients `Listed` admits, each as often as stored (never archived; unassigned overrides the specialist filter), newest first |
| Clients.ClientsService.FindById | backend/src/modules/clients/clients.service.ts:93-118 | NotFound first, then Forbidden exactly for a specialist who is not the assignee; otherwise the client with exactly its history, newest first |
| Clients.ClientsService.Update | backend/src/modules/clients/clients.service.ts:120-160 | NotFound, then Forbidden for a non-assignee specialist, then Forbidden for a status change by anyone but a project manager (a null status is falsy and passes), then a 500 when Prisma refuses a null phone or status; a refused call changes nothing; otherwise the patched client, with a STATUS_CHANGED row exactly when a status was given |
| Clients.ClientsService.Archive | backend/src/modules/clients/clients.service.ts:162-179 | NotFound changes nothing; otherwise only the archive flag is set, and one CLIENT_ARCHIVED row is written |
| Clients.ClientsService.Assign | backend/src/modules/clients/clients.service.ts:181-229 | NotFound, then BadRequest unless the target is a specialist, and a refusal changes nothing; otherwise the client is reassigned, one history row and one audit row are appended, and history stays consistent |
| Clients.ClientsService.Acknowledge | backend/src/modules/clients/clients.service.ts:231-261 | NotFound, then the `AcknowledgeError` checks, and a refusal changes nothing; otherwise the client is acknowledged and IN_WORK, with one audit row |
| Comments.CommentsService.Create | backend/src/modules/comments/comments.service.ts:8-18 | NotFound exactly for an absent client, with nothing written; otherwise exactly one comment is appended |
| Comments.CommentsOf | backend/src/modules/comments/comments.service.ts:20-26 | exactly the client's comments, each as often as stored, newest first |
| Payments.RenewalPayments | backend/src/modules/payments/payments.service.ts:71-101 | exactly the renewals of the month, each as often as stored (for a specialist only those of the caller's clients), newest first |
| Payments.RenewedAt | backend/src/modules/payments/payments.service.ts:110 | the renewal date is the `YYYY-MM-DD` date of the payment's time |
| Payments.RenewalOf | backend/src/modules/payments/payments.service.ts:106-112 | a report line has the client's id and amount, its full name or else its company name, the payment's date, and the assignee exactly when there is one |
| Payments.RowsBelong | backend/src/modules/payments/payments.service.ts:88-101 | rows drawn from payments that belong to stored clients also belong to stored clients |
| Payments.Report | backend/src/modules/payments/payments.service.ts:103-113 | the month is echoed, the total equals the number of lines, and line i is the projection of row i |
| Payments.PaymentsService.Create | backend/src/modules/payments/payments.service.ts:10-41 | Forbidden before the lookup for a role other than ADMIN or SALES_MANAGER, then NotFound; refusals append nothing; otherwise exactly one payment is appended |
| Payments.PaymentsService.FindByClient | backend/src/modules/payments/payments.service.ts:43-63 | Forbidden exactly for SPECIALIST and DESIGNER; otherwise the client's payments (a sales manager's own only), each as often as stored, newest first |
| Payments.PaymentsService.GetRenewals | backend/src/modules/payments/payments.service.ts:65-114 | Forbidden exactly for roles other than ADMIN and SPECIALIST; otherwise the month's report with line i projecting row i of `RenewalPayments` |
| PaymentsController.Create | backend/src/modules/payments/payments.controller.ts:24-33 | the role guard refuses first, so the service's own role error never occurs; otherwise the service's NotFound or one appended payment |
| PaymentsController.FindByClient | backend/src/modules/payments/payments.controller.ts:35-42 | no guard: ADMIN, PROJECT_MANAGER and SALES_MANAGER are served the visible rows, and only the service refuses |
| PaymentsController.GetRenewals | backend/src/modules/payments/payments.controller.ts:44-56 | a missing or malformed month is a 403 whatever the role; a well-formed month gets exactly the service's answer for that month, caller id and role |
| Dashboard.FieldFor | backend/src/modules/dashboard/dashboard.service.ts:22-63 | exactly SPECIALIST, DESIGNER and SALES_MANAGER have a dashboard |
| Dashboard.RowOf | backend/src/modules/dashboard/dashboard.service.ts:69-80 | the projection keeps the client's id and its three date fields |
| Dashboard.RowsSorted | backend/src/modules/dashboard/dashboard.service.ts:81 | projecting clients ordered by the role's date keeps the rows in that order |
| Dashboard.FindWhere | backend/src/modules/dashboard/dashboard.service.ts:65-83 | the rows are exactly the projections of the clients the filter admits, as many as `count` counts, newest first by the role's date |
| Dashboard.GetPersonalDashboard | backend/src/modules/dashboard/dashboard.service.ts:9-92 | no dashboard for other roles or no role (count 0, never an error); otherwise the filter over the month window, with count equal to the number of rows; month, year and role echoed |
| Dashboard.InWindowOf | backend/src/modules/dashboard/dashboard.service.ts:65-91 | the count and list queries over the same filter agree, and the inputs are echoed |
| Dashboard.SpecialistRows | backend/src/modules/dashboard/dashboard.service.ts:23-34 | every row of a specialist's list is an acknowledged client of the caller, assigned within the window |
| Dashboard.SalesManagerRows | backend/src/modules/dashboard/dashboard.service.ts:49-59 | every client a sales manager created within the window is listed, whatever its assignment |
| Dashboard.GetUserDashboard | backend/src/modules/dashboard/dashboard.service.ts:94-124 | NotFound exactly for an unknown user; otherwise the target's own dashboard under the target's role, with the target's identity and id |
| RenewalsRoute.Run | frontend/app/api/renewals/route.ts:26-37 | exactly the stored renewals of the month (restricted to the listed clients once scoped), each as often as stored, newest first |
| RenewalsRoute.AssignedIds | frontend/app/api/renewals/route.ts:43-48 | an id is listed exactly when some client with that id is assigned to the caller |
| RenewalsRoute.ClientOf | frontend/app/api/renewals/route.ts:30 | the join finds a client with the payment's id, or none exists |
| RenewalsRoute.LineOf | frontend/app/api/renewals/route.ts:65-75 | a line has the amount and the ISO date; without a client the id and name are absent (`undefined`, left out of the JSON) and the specialist is null; otherwise full name else company name, and the assignee's profile exactly when assigned |
| RenewalsRoute.Lines | frontend/app/api/renewals/route.ts:65-76 | one line per row, in order |
| RenewalsRoute.LinesOfRows | frontend/app/api/renewals/route.ts:65-76 | every line of the report projects one of the rows |
| RenewalsRoute.Expected | frontend/app/api/renewals/route.ts:5-82 | 403 for other roles whatever the month, then 400 for a missing or malformed month, and otherwise a 200 report of the caller's rows with total equal to the line count |
| RenewalsRoute.ReportLines | frontend/app/api/renewals/route.ts:35-56 | each reported line comes from a stored renewal of the month and, for a specialist, from a client assigned to the caller |
| RenewalsRoute.NoAssignedClients | frontend/app/api/renewals/route.ts:49-55 | the early return for a specialist without clients answers exactly what the restricted query would |
| RenewalsRoute.Get | frontend/app/api/renewals/route.ts:5-77 | the handler, with its gates, reassigned query and early return, answers `Expected` |

## Left out

- Database I/O is not modelled. Tables are sequences and clients are indexed by id. Prisma `include`/`select` joins of user names are left out, so rows carry ids only.
- Clocks are not modelled: the current time is a parameter `now`, and the audit trail, comments and history rows are stamped with it.
- `Promise.all` in the dashboard is modelled as two queries over the same unchanged table. Concurrent writes between the count and the list are not modelled.
- Clients.ClientsService.Assign: the client update, the history row and the audit row are three separate writes in the source. The model performs them as one atomic step.
- Time zones are not modelled. `new Date(year, month - 1, 1)` uses local time and the model uses UTC.
- The designer assignment (`designerId`, `designerAssignedAt`, `designerAssignmentSeen`) is written outside these services. The dashboard reads it as a stored field.
- Column defaults come from the database schema, which is not part of this model:
  - a new client's services are empty;
  - its initial status is `NEW`;
  - `assignmentSeen` is false.
- Clients.ClientsService.Create: `services`, `groupName` and `paymentAmount` are validated but not stored, as in the source. `email` and `source` are carried as optional body properties.
- Other properties that the validator does not know are not modelled (whitelisting depends on the pipe configuration, which is not part of this model).
- Email validity (`@IsEmail`) is a function parameter, and the status enum's value set is a parameter.
- Database errors, the front-end handler's 500 path, and `requireAuth`'s 401 are left out.
- RenewalsRoute.LineOf: PostgREST returns `created_at` as ISO text, so only the string branch of `typeof p.created_at` is modelled.
- Clients.ClientsService.FindAll: the case-insensitive search folds only ASCII A-Z and the basic Cyrillic alphabet with Ё; the database folds case by its locale (accented Latin, Ї, Ґ, Greek and more), which is not modelled.
- Clients.ClientsService.Update: Prisma's refusal of a null phone or status is modelled as one 500 error; the exact Prisma error text is not modelled.
- The user table is a constant of `ClientsService`: creating users and changing roles (the users routes) is not modelled, so the invariant only claims that every assignee is a user, not that it is still a specialist.
- Calendar.LeapDayAgrees: the ISO rendering and the month window use two calendar computations; they are shown to agree on a sample day, not for every day.
- Ordering: `orderBy ... desc` is a sort by the key. The order among equal keys is not specified.
- The roles guard (`roles.guard.ts`) is not part of this model. `Forbidden resource` is the framework's default message for a refused role.
- Payments.PaymentsService.GetRenewals: every payment is assumed to belong to a stored client (the foreign key). This is part of the service's `Valid` invariant.
- Dashboard.SpecialistRows and Dashboard.SalesManagerRows are stated for any window `start..end`. Calendar.MonthWindow states what the month window is.
- The comments, dashboard and users controllers, tasks, authentication and the UI are not part of this model.
