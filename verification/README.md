# Verified model of the ticketing and invoicing core

This project models, in Dafny 4.11, the parts of the system whose correctness depends on the
order in which many clients read and write one store, on text that leaves the system and comes
back, and on exact money arithmetic. `dafny verify dfyconfig.toml` checks all of it.

| file | what it models |
|---|---|
| `Prelude.dfy` | options, splitting and trimming of strings, string order, decimal numbers |
| `Money.dfy`, `MoneyText.dfy` | rounding, line amounts, GST, totals; quantities and amounts as text |
| `Snapshots.dfy` | invoice rows and the snapshot a finalized invoice keeps |
| `InvoiceTables.dfy`, `InvoiceStore.dfy` | what each invoicing write does to the tables, and the code that issues it as one conditional update or transaction |
| `InvoiceRuns.dfy`, `InvoiceTheorems.dfy`, `InvoiceSaturation.dfy` | whole runs: resolvers read at moments of their own and write later |
| `InvoiceHistory.dfy` | what stays in a row after a write, over whole runs, and exactly when each call writes |
| `OAuthGrants.dfy`, `OAuthRuns.dfy` | refresh-token rotation with reuse detection, over whole runs |
| `Paging.dfy`, `BatchGet.dfy` | the loops over a store that splits, defers and reorders as it likes |
| `Tickets.dfy`, `TicketListing.dfy` | ticket rows, their composite index keys, and the listings over them |
| `Routing.dfy`, `Resolution.dfy`, `SubjectTags.dfy` | addresses, reply tags, message ids, threading headers, subject tags |
| `TicketResolution.dfy`, `Intake.dfy` | inbound mail: the walk that picks a ticket, whole and read by read; the machine that interleaves the reads and writes of any number of workers |
| `WalkOrder.dfy` | which candidate decides a walk whose reads are interleaved with anything |
| `Pipeline.dfy`, `PipelineRuns.dfy`, `MailLosses.dfy` | one delivery from claim to stored message, that it is a run of that machine, and the mail it claims and loses |
| `ReplyMatching.dfy` | which ticket a delivered mail ends up on, said of its recipients, headers and subject |

How the model is built:

- A table is a map. One conditional put, update or `TransactWriteItems` call is one atomic step;
  a specification function (`Exec`) says what it does, and a class method, written the way the
  handler is, is proved to do exactly that, and to leave the rows its own contract spells out
  without that function.
- A run is a sequence of table states with one step between neighbours. A call's arguments are
  computed from rows read in earlier states of the run, so every interleaving of reads and
  writes of any number of clients is a run, and a theorem about runs is about all of them.
- Fresh ids, secrets, the clock, parsed mail and the order in which an index or a batch returns
  rows are parameters or nondeterministic choices. Hashing is an injective constructor.

Where the code does less than its comments or names promise, the model follows the code:

- Invoice numbers are narrowed with `u32::try_from(number).unwrap_or(u32::MAX)`
  (api/src/graphql/mutations.rs:3759), so numbers are unique exactly below that bound
  (`NumbersShared`, `UniqueNumbers`, `SaturatedPair`).
- `format_quantity` is said to print the shortest form (api/src/invoicing/money.rs:88-91). That holds
  exactly from 1.00 on; below, ".5" is accepted and shorter than "0.5" (`FormatShortest`).
- `tag_subject` is said to look for a tag the subject begins with (api/src/outbound.rs:195-199).
  It finds one anywhere, so a subject that names another ticket keeps naming it (`TagSubjectSpec`).
- A subject tag is said to be found whatever a mail client puts before it (api/src/outbound.rs:169-176). A prefix that already holds a
  readable tag takes its place, slug and number both; a prefix that leaves a `[#` open swallows the slug,
  though not the number; behind every other prefix the tag reads back (`TagBehindPrefix`).
- `classify_for_storage` admits a `+` in the local part (`PlusIsStored`). Nothing is ever routed to such an
  address (`PlusNeverCovers`), and an instance's Reply-To comes home with its ticket and token if and only
  if the sender has none (`ReplyToComesHome`).
- `get_records` is said to align results with ids by position. A second occurrence of an existing id
  gets `None`, and one inside the same chunk fails the call (`GetRecords`, `AlignedIff`).
- `get_ticket_id_by_rfc_message_id` expects message ids to be unique, but those of inbound mail are
  stored as they come. The ticket walk errs exactly when no reply tag verifies and the first message
  id that leads anywhere is shared (`FailsIffSharedId`); two mails with one id are enough, and every
  reply that meets it is claimed and never stored (`SharedIdLosesMail`, `SharedIdLosesReply`).
- A string set with a repeated element is refused by DynamoDB. The raw `To` and `Cc` of a mail go into
  such sets without the deduplication the ticket's own copies get; a mail that repeats an address is
  therefore claimed, may open its ticket, and is never stored (`DeliveredIff`, `RepeatedAddressIsLost`).

## Model

| member | source | states |
|---|---|---|
| `InvoiceStore.Store.TransactWrite` | api/src/dynamodb.rs:1060-1084 | all conditions are judged on the state before the call; then every write happens or none; too long or repeating a row is a failure that changes nothing |
| `InvoiceStore.Store.CreateBillableItem` | api/src/dynamodb.rs:2703-2776 | commits if and only if the id is free; then the item has the given instance, project, content, creator and time and is on no invoice; else nothing changes |
| `InvoiceStore.Store.UpdateBillableItem` | api/src/dynamodb.rs:2778-2887 | commits if and only if the item is there and either unbilled or on the given invoice while that is a draft; then the item has exactly the new content and time and every other field it had, every other item is as before, and the draft is one version higher; a refusal changes nothing |
| `InvoiceStore.Store.DeleteBillableItem` | api/src/dynamodb.rs:2889-2916 | commits if and only if the item is there and on no invoice; then it alone is gone |
| `InvoiceStore.Store.CreateInvoice` | api/src/dynamodb.rs:3019-3106 | fails exactly for ids that repeat or are too many; commits if and only if also the id is free and every item unbilled and of the project; then the draft is at version 1 with these items, each points to it, and no other row changed |
| `InvoiceStore.Store.AddInvoiceItems` | api/src/dynamodb.rs:3108-3158 | commits exactly on a draft at the expected version with every item unbilled and of the project; then the set grows by the items, each points back, the version is one higher |
| `InvoiceStore.Store.RemoveInvoiceItems` | api/src/dynamodb.rs:3160-3203 | commits exactly on a draft at the expected version with every item on it; then the set shrinks, the items are unbilled, the version is one higher |
| `InvoiceStore.Store.DeleteInvoice` | api/src/dynamodb.rs:3205-3242 | commits exactly on a draft at the expected version with every listed item on it; the row goes, the items are unbilled |
| `InvoiceStore.Store.FinalizeInvoice` | api/src/dynamodb.rs:3244-3306 | commits if and only if the invoice is a draft at the expected version, and is refused otherwise; then it is finalized with the given number, date, snapshot, total, user and time, one version higher |
| `InvoiceStore.Store.SetInvoicePaid` | api/src/dynamodb.rs:3308-3346 | commits if and only if the invoice is finalized; then its paid date is the one given, its update time the call's, and all else is as before |
| `InvoiceStore.Store.SetInvoicePdfKey` | api/src/dynamodb.rs:3348-3375 | commits if and only if the invoice is finalized; then its PDF key is the one given and all else is as before |
| `InvoiceStore.Store.IncrementInvoiceCounter` | api/src/dynamodb.rs:3377-3407 | always answers one more than the counter, or 1 without one, and stores the number it answers |
| `InvoiceStore.Store.SetNextInvoiceNumber` | api/src/dynamodb.rs:3433-3464 | refused exactly if the counter is beyond the value; else the counter is the value |
| `InvoiceStore.AcceptedList` | api/src/dynamodb.rs:3019-3242 | a transaction of one invoice write and its item writes is admissible exactly when the item ids are distinct and few enough |
| `InvoiceStore.EffectsOfAttaches` | api/src/dynamodb.rs:3019-3158 | item by item linking adds up to linking the set |
| `InvoiceStore.EffectsOfDetaches` | api/src/dynamodb.rs:3160-3242 | item by item unlinking adds up to unlinking the set |
| `InvoiceRuns.LinksHold` | api/src/dynamodb.rs:3019-3242 | in every state of every run an item names an invoice exactly when that invoice exists and lists it, in the item's own project |
| `InvoiceRuns.NamesIffListed` | api/src/dynamodb.rs:3019-3242 | the same item by item: an item names an invoice if and only if the invoice is there and lists it, and then both are of one project |
| `InvoiceRuns.ItemSetsDisjoint` | api/src/db.rs:645-702 | in every reachable state the item sets of different invoices are disjoint |
| `InvoiceRuns.CommitsAsRead` | api/src/graphql/mutations.rs:3548-3680 | a delete that commits drops exactly the items on the invoice, and an add puts on only items of its project, although both were checked on earlier reads |
| `InvoiceRuns.NeverBack` | api/src/dynamodb.rs:3205-3242 | a deleted invoice never comes back in a later state |
| `InvoiceRuns.VersionPinsContents` | api/src/db.rs:650-656 | versions only grow, and two states with the same version of an invoice have the same item set and the same item rows; so do any two states after it is finalized |
| `InvoiceRuns.FinalizedForever` | api/src/db.rs:611-615 | from the step that finalizes it, an invoice keeps status, number, date, snapshot, total, item set and every item row in all later states; only payment, PDF key and update time move |
| `InvoiceRuns.OneWritePerVersion` | api/src/db.rs:650-656 | of all adds, removes, deletes and finalizes prepared against one version of an invoice, at most one ever writes |
| `InvoiceTheorems.AlwaysHealthy` | api/src/graphql/mutations.rs:324-349 | in every state an invoice has at most 50 items, every item's quantity and price are in range, and an invoice carries number, date, snapshot and total exactly when finalized, although the cap was counted on an earlier read |
| `InvoiceTheorems.ReadsStillCurrent` | api/src/db.rs:1768-1783 | when a finalize writes, the invoice and every item row it read separately, at different times, are the rows in the tables at that moment |
| `InvoiceTheorems.FinalizedShowsItems` | api/src/graphql/mutations.rs:3682-3800 | in every state of every run each finalized invoice's snapshot has one line for each of its items; the lines are a permutation of its item rows as they are in that very state, by date and creation time, ties in the order the finalizing call read them; each line carries the date, description, quantity and price of its row, the exact product rounded half away from zero, and a quantity text that parses back; subtotal, GST (the rounded tenth, or 0), total, the number in at least three digits and the issue date are the invoice's own; the sum overflows at no step and the total is safe |
| `InvoiceTheorems.FinalizedBy` | api/src/dynamodb.rs:3244-3306 | a finalized invoice was finalized by one step of the run, which wrote its outcome |
| `InvoiceTheorems.WritesIffUntouched` | api/src/dynamodb.rs:3160-3306 | a prepared remove, delete or finalize writes if and only if the invoice and every row on it are still as they were read; per-item conditions never refuse on their own |
| `InvoiceTheorems.AddWritesIff` | api/src/dynamodb.rs:3108-3158 | a prepared add writes if and only if the invoice is untouched and every item to add is still unbilled and of its project |
| `InvoiceTheorems.CounterGrows` | api/src/dynamodb.rs:3377-3464 | an instance's counter never decreases along a run |
| `InvoiceTheorems.AllocationsDiffer` | api/src/db.rs:1777-1782 | no two allocations of an instance ever return the same number, whatever moves the counter between them |
| `InvoiceTheorems.NumbersShared` | api/src/graphql/mutations.rs:3750-3765 | two finalizes of one instance store the same number if and only if both allocations had reached the end of the 32-bit range |
| `InvoiceTheorems.UniqueNumbers` | api/src/db.rs:1832-1835 | no two finalized invoices of an instance share a number in any state of any run, unless it is the saturated one |
| `InvoiceHistory.NewItemWritesIff` | api/src/graphql/mutations.rs:3369-3409 | a creation writes if and only if its content is in range and its id is free |
| `InvoiceHistory.EditWritesIff` | api/src/graphql/mutations.rs:3411-3480 | an edit writes if and only if its content is in range, the item is still there and on the same invoice, if on any, as when it was read, and that invoice was a draft when read and still is |
| `InvoiceHistory.DropWritesIff` | api/src/graphql/mutations.rs:3482-3504 | a removal writes if and only if the item was read on no invoice and is still there and on none |
| `InvoiceHistory.NewInvoiceWritesIff` | api/src/graphql/mutations.rs:3506-3546 | a new invoice is written if and only if it has one to fifty different items, all unbilled and of its project |
| `InvoiceHistory.AsksIff` | api/src/graphql/mutations.rs:329-370 | exactly which adds, removes and deletes the resolvers let through, on the row they read |
| `InvoiceHistory.FreezeAsksIff` | api/src/graphql/mutations.rs:3682-3800 | a finalize reaches its write if and only if it read a draft with items, every one still on it at its own read, and the total of their charges is within the safe range |
| `InvoiceHistory.PayWritesIff` | api/src/graphql/mutations.rs:3815-3869 | a payment or a cached PDF is written if and only if the invoice was finalized when read |
| `InvoiceHistory.SetNextWritesIff` | api/src/graphql/mutations.rs:3917-3960 | the next number is set if and only if it is at least 1 and not below the one the counter would give |
| `InvoiceHistory.ContentWritten` | api/src/dynamodb.rs:2778-2887 | after the step that creates or edits an item it has exactly the content and time of the call, an edit keeps its other fields, and no other item changed |
| `InvoiceHistory.LastEditShows` | api/src/dynamodb.rs:2778-2887 | from a creation or edit to the next edit or removal of the item, it is there with that content in every state, whatever else happens |
| `InvoiceHistory.ContentOrigin` | api/src/dynamodb.rs:2703-2887 | and every item in every state shows the last call that gave it a content |
| `InvoiceHistory.LastPaymentShows` | api/src/dynamodb.rs:3308-3346 | after a payment the invoice shows the date that was given, until the next one |
| `InvoiceHistory.UnpaidShowsNothing` | api/src/dynamodb.rs:3308-3346 | and none before the first |
| `InvoiceHistory.NumberAnswered` | api/src/dynamodb.rs:3377-3407 | the number an allocation brings is the one the database answered and stored, one above the counter |
| `InvoiceHistory.NextAllocation` | api/src/dynamodb.rs:3433-3464 | after the next number was set to n the next allocation of the instance answers n, and after an allocation its successor |
| `InvoiceSaturation.SaturatedPair` | api/src/graphql/mutations.rs:3750-3800 | a run from empty tables, every call within what the resolvers let through, that ends in two finalized invoices of one instance with one number though their allocations returned two |
| `InvoiceSaturation.Continue` | api/src/graphql/mutations.rs:3682-3800 | every run can be continued with any call whose reads are earlier, whose new id is fresh and whose number is its own |
| `Snapshots.SortItemsSpec` | api/src/invoicing/snapshot.rs:108-175 | the print order is a permutation of the items, ordered, and stable on ties |
| `Snapshots.SnapshotTotal` | api/src/invoicing/snapshot.rs:108-175 | the frozen subtotal and total do not depend on the order the items were read or printed in |
| `Snapshots.SortedIsPrinted` | api/src/invoicing/snapshot.rs:121-123 | the sort is a permutation of places: earlier dates first, then earlier creation, then as read |
| `Snapshots.BuiltShowsRows` | api/src/invoicing/snapshot.rs:108-175 | every field of the snapshot built from rows in range, stated without the functions that build it |
| `Prelude.AtMostIsLexicographic` | api/src/invoicing/snapshot.rs:122 | the order of dates is the one of a dictionary |
| `Money.DivRoundHalfUp` | api/src/invoicing/money.rs:104-116 | the result is the nearest integer, a half going away from zero |
| `Money.RoundedHalfAwayUnique` | api/src/invoicing/money.rs:104-116 | that rule determines the result |
| `Money.LineAmountExact` | api/src/invoicing/money.rs:118-132 | an in-range line is the exact product rounded; the clamp is never met |
| `Money.LineAmountSaturates` | api/src/invoicing/money.rs:118-130 | of any quantity and price the amount is the rounded product, held at the ends of `i64` |
| `Money.LineAmountMonotone` | api/src/invoicing/money.rs:118-122 | for prices and quantities that are not negative, of any size, more of it or dearer never costs less |
| `Money.CheckedSumIff` | api/src/invoicing/snapshot.rs:137 | the running sum is the sum, and leaves `i64` if and only if some first part of it does |
| `Money.WholeInvoiceFits` | api/src/invoicing/money.rs:118-132 | for up to 50 in-range lines no partial sum leaves `i64`, the total fits, the sum is within half a cent a line of the exact one, and GST is a tenth rounded half up |
| `Money.SmallInvoicesAreSafe` | api/src/invoicing/mod.rs:77-84 | up to 8 lines with GST, 9 without, always pass the total check |
| `Money.MaximalInvoiceTotal` | api/src/invoicing/mod.rs:77-84 | those bounds are exact: n maximal lines pass if and only if n is within them |
| `MoneyText.ParseQuantityExact` | api/src/invoicing/money.rs:33-84 | after trimming, the parser answers q if and only if the text is digits with at most two decimals that denote q hundredths with 0 < q <= 100,000,000 |
| `MoneyText.ParseErrors` | api/src/invoicing/money.rs:33-84 | which error a refused text gets: missing, not positive, malformed exactly if it writes no number, too many decimals, too large |
| `MoneyText.FormatThenParse` | api/src/invoicing/money.rs:88-102 | parsing a printed quantity gives it back, for the whole range |
| `MoneyText.FormatQuantityShape` | api/src/invoicing/money.rs:88-102 | the printed text is the whole part in shortest form and no more decimals than needed; a negative one has a sign in front |
| `MoneyText.FormatShortest` | api/src/invoicing/money.rs:88-102 | the printed text is a shortest accepted one if and only if the quantity is at least 1.00 |
| `MoneyText.GroupThousands` | api/src/invoicing/money.rs:135-148 | the left-to-right loop builds the grouping counted from the right |
| `MoneyText.GroupedSpec` | api/src/invoicing/money.rs:135-148 | one to three digits, then groups of exactly three; without the commas it is the input |
| `MoneyText.FormatCents` | api/src/invoicing/money.rs:135-148 | for every 64-bit amount: `-` in front if and only if it is negative; then well-formed groups that, without commas, are the shortest decimal of the whole units; then the only `.`, three places from the end; then exactly two digits that denote the cents |
| `MoneyText.CentsTextReadsBack` | api/src/invoicing/money.rs:135-148 | with sign kept, commas and point dropped, the text denotes the amount |
| `OAuthGrants.MintedTokensParse` | api/src/oauth.rs:71-106 | a minted token of either kind parses to its grant and secret, and never as the other kind |
| `OAuthGrants.TokensDiffer` | api/src/oauth.rs:94-106 | tokens are equal only for equal grant and secret |
| `OAuthGrants.ParsesIffNames` | api/src/oauth.rs:71-79 | a token parses if and only if it is the prefix, a grant id without a point, a point and a secret, and then gives that grant |
| `OAuthGrants.GrantTable.CreateOauthGrant` | api/src/dynamodb.rs:2199-2240 | a put that needs the id to be free |
| `OAuthGrants.GrantTable.RotateOauthGrant` | api/src/dynamodb.rs:2276-2333 | a compare-and-swap on the refresh hash that replaces both hashes and both expiries |
| `OAuthGrants.GrantTable.TokenRefresh` | api/src/oauth_http.rs:474-544 | tokens are answered if and only if the token names a grant whose row is there and holds its hash, now is before both the refresh and the absolute expiry, client and resource are the grant's and the user is active; then the row holds exactly the answered pair with an hour and thirty days, cut off at the absolute expiry; a token that is not current removes the grant; every other request changes nothing and gets the first error that applies |
| `OAuthGrants.GrantTable.VerifyAccessToken` | api/src/oauth.rs:172-245 | lets through exactly the tokens that name a grant whose row holds their hash, before the hour and the grant run out, for the grant's resource, when the user can be had and a due touch does not fail, in the name of the grant's user; writes the last use exactly when it is over five minutes old |
| `OAuthGrants.AcceptedIffOpens` | api/src/oauth.rs:172-236 | over runs too a use is accepted exactly on those conditions |
| `OAuthRuns.NeverBack` | api/src/oauth_http.rs:474-544 | a grant that is gone never comes back |
| `OAuthRuns.TermsNeverChange` | api/src/db.rs:182-206 | user, client, redirect, resource, scope, creation and absolute expiry never change along a run |
| `OAuthRuns.LifetimeCapped` | api/src/oauth.rs:110-158 | in every state the refresh window ends within 90 days of the grant's creation |
| `OAuthRuns.BornAt` | api/src/oauth.rs:110-143 | every grant was issued by one earlier call, which gave it its terms, its creation time and ninety days |
| `OAuthRuns.PairWindows` | api/src/oauth.rs:110-158 | the windows of the current pair count from the call that drew it: an hour, and thirty days cut off at the absolute expiry |
| `OAuthRuns.PairOrigin` | api/src/oauth.rs:145-158 | the current pair was drawn together by one earlier call, with no exchange since |
| `OAuthRuns.ExchangedIff` | api/src/oauth_http.rs:474-544 | over runs: a refresh exchanges its token if and only if it was good, field by field, on the row that was read and the row still holds its hash; what it then leaves is stated field by field |
| `OAuthRuns.ExchangedInTime` | api/src/oauth_http.rs:508-510 | so no token is exchanged thirty days or more after it was drawn, nor ninety days or more after its grant was created |
| `OAuthRuns.ExchangedOnce` | api/src/oauth_http.rs:474-544 | a refresh token is exchanged at most once over every interleaving of refreshes, uses and revocations |
| `OAuthRuns.RotationWinsIff` | api/src/dynamodb.rs:2283-2333 | a refresh that decided to rotate succeeds if and only if the grant is still there and nothing exchanged on it since the read |
| `OAuthRuns.KillsIffReused` | api/src/oauth_http.rs:474-544 | for a token that was handed out, a request kills the grant it reads if and only if the token had been exchanged before the read |
| `OAuthRuns.KilledForGood` | api/src/oauth_http.rs:474-544 | a killed grant is in no later state |
| `OAuthRuns.AccessEndsAtRotation` | api/src/oauth.rs:172-236 | an access token is refused 3,600 seconds after it was drawn, from the next exchange on its grant on, and past the absolute lifetime |
| `Paging.Partition.ListPage` | api/src/dynamodb.rs:2938-3000 | for any way the store splits the index the loop ends and returns the first `limit` matching rows after the cursor |
| `Paging.Partition.ListTickets` | api/src/dynamodb.rs:3917-4012 | the forward listing returns a first stretch of the matching rows, at least `limit` of them unless they end |
| `Paging.Partition.QueryAll` | api/src/dynamodb.rs:1221-1246 | every matching row of the partition, in order |
| `Paging.MatchingPlaces` | api/src/dynamodb.rs:2938-3000 | the matching rows are the rows at exactly the places the filter keeps, in their order |
| `Paging.StretchCut` | api/src/graphql/pagination.rs:46-89 | cut to the limit, such a stretch is the first `limit` rows |
| `Paging.PositionParts` | api/src/dynamodb.rs:3941-3964 | a cursor parts the index by order even when its row is gone |
| `Paging.BuildConnection` | api/src/graphql/pagination.rs:46-89 | edge i is row i of what was fetched, with `last` counted from the far end of the page; no more than a page; `hasNextPage` and `hasPreviousPage` in both modes |
| `Paging.Reverse` | api/src/graphql/pagination.rs:66 | element i is element n - 1 - i |
| `Paging.HasNextIffMore` | api/src/graphql/pagination.rs:41-89 | with one row more fetched than shown, `hasNextPage` holds exactly while matching rows remain |
| `Paging.ListConnection` | api/src/graphql/query.rs:2236-2270 | the listing with `page_size + 1` and the connection built from it are that page and that flag, for any page splits |
| `Paging.TicketConnection` | api/src/graphql/query.rs:2029-2080 | the same of the ticket listing, which may return more rows than it was asked for |
| `Paging.PagesCoverAll` | api/src/graphql/pagination.rs:46-89 | following end cursors shows every matching row exactly once, in order, and ends |
| `BatchGet.Table.GetChunk` | api/src/dynamodb.rs:854-909 | after at most five attempts, whatever is deferred each time, every existing row asked for is collected or still pending |
| `BatchGet.Table.GetRecords` | api/src/dynamodb.rs:844-916 | fails, or answers per position the row of that id at its first occurrence; never `None` for an existing row whose id did not come before |
| `BatchGet.AlignedIff` | api/src/dynamodb.rs:836-916 | the answer is position by position the row with that id if and only if no existing id is asked for twice |
| `Tickets.AtMostOne` | api/src/db.rs:45-50 | an error exactly for two or more matches, else all of them |
| `Tickets.TicketTable.CreateTicket` | api/src/dynamodb.rs:3595-3681 | refused exactly for a taken id or a repeated address; else the new row has the given instance, number, subject, addresses and reply token, is open and unassigned, and carries the index keys of those, and no other row changed |
| `Tickets.TicketTable.UpdateTicket` | api/src/dynamodb.rs:3680-3915 | not found exactly without the row; else each update shape sets and removes the attributes it names, status writes all three index keys, and nothing else of any row changes |
| `Tickets.TicketTable.IncrementTicketCounter` | api/src/dynamodb.rs:3563-3593 | adds one and answers the new value |
| `Tickets.TicketTable.GetTicketIdByInstanceNumber` | api/src/dynamodb.rs:4014-4045 | the one ticket under the key, none, or an error exactly when there are several |
| `Tickets.StepKeepsMarkersIff` | api/src/db.rs:1066-1090 | a write keeps every row's index keys equal to the computed ones if and only if it names the ticket's own instance |
| `Tickets.RunKeepsMarkers` | api/src/db.rs:998-1016 | so they agree after every sequence of creates and updates |
| `Tickets.RestoreRestoresMarkers` | api/src/dynamodb.rs:3683-3767 | deleting drops the visible and assignee keys, and restoring with the kept assignee gives the same row back |
| `Tickets.QueryIsFilter` | api/src/dynamodb.rs:3927-3951 | the index query finds exactly the tickets a filter on the base table shows; only the assignee index needs ids without `#`, and only one of the two kinds |
| `Tickets.HashInIdsLeaks` | api/src/db.rs:998-1016 | with `#` in both kinds of id it shows a ticket of another instance |
| `Tickets.NumberKeyIsFilter` | api/src/dynamodb.rs:3629-3632 | the number index finds exactly the tickets of the instance with the number, for all ids |
| `TicketListing.ListedIffShown` | api/src/dynamodb.rs:3917-4012 | the rows a listing runs through are exactly the tickets the filter shows after the cursor |
| `Routing.ResolveFindsFirst` | api/src/inbound/routing.rs:109-118 | a miss means no key of any recipient is known; a hit is the best key of the first recipient that has one |
| `Routing.FindInstance` | api/src/inbound/routing.rs:157-169 | the two loops compute that hit's instance |
| `Routing.FirstRoutedDecides` | api/src/inbound/routing.rs:157-169 | the first recipient whose exact address, or else the wildcard of whose domain, is a row decides, for the instance of that row |
| `Routing.ClassifiedIsStored` | api/src/inbound/routing.rs:127-147 | whatever classification lets in, it lets in again unchanged |
| `Routing.ClassifySpec` | api/src/inbound/routing.rs:127-147 | what is let in, as which kind: trimmed, in lower case, `*` for a whole domain, else both parts present and no star |
| `Routing.NormalizeSpec` | api/src/inbound/routing.rs:57-81 | lower case but for the tag, which is what stands between the first `+` of the local part and the first `@` |
| `Routing.OwnIffRoutes` | api/src/outbound.rs:153-159 | for stored rows and every string: own address, stripped, and hit by `resolve` are equivalent |
| `Routing.NoSelfMail` | api/src/inbound/routing.rs:157-169 | an address is an instance's own if and only if a key of it names a row of that instance; no other address routes to it |
| `Routing.DeliverableNeverReturns` | api/src/outbound.rs:310-319 | exactly the foreign recipients are kept, and none of them routes back |
| `Routing.DeliverableInOrder` | api/src/outbound.rs:310-319 | and they stay in their order |
| `Routing.StripOwnAddresses` | api/src/inbound/pipeline.rs:691-713 | the loop computes the specified list |
| `Routing.StrippedSpec` | api/src/inbound/pipeline.rs:691-713 | that list is distinct, without the sender and without own addresses, and holds every other addressee |
| `Routing.SenderIgnoresOrder` | api/src/outbound.rs:116-131 | the sending address depends on the rows, not on their order |
| `Routing.SenderIsEarliest` | api/src/outbound.rs:116-131 | the sending address is the exact address created first, ties by address; without any, `support` at the domain of the wildcard created first |
| `Routing.SomeRowComesFirst` | api/src/outbound.rs:116-131 | of a kind that has rows one comes first, so these cases are all there are |
| `Routing.SenderIsOwn` | api/src/outbound.rs:101-131 | an instance with a stored address has a sender; without a `+`, as for every wildcard, it is the instance's own |
| `Resolution.ReplyToReadsBackIff` | api/src/outbound.rs:136-141 | a Reply-To normalizes to the sending address, and its tag parses to this ticket and token with their case, if and only if the sending address has no `+` |
| `Resolution.ReplyToComesHome` | api/src/outbound.rs:101-141 | for any stored rows: the Reply-To is hit by `resolve` and yields exactly this one tag if and only if the sender has no `+`, as a sender made up for a wildcard never has |
| `Resolution.PlusNeverCovers` | api/src/inbound/routing.rs:57-118 | a stored exact address with a `+` is hit by no recipient at all |
| `Resolution.PlusSenderIsLost` | api/src/outbound.rs:136-141 | the Reply-To of an instance whose one address has a `+` is never hit |
| `Resolution.PlusIsStored` | api/src/inbound/routing.rs:127-147 | and such an address is let in |
| `Resolution.ExtractReplyTags` | api/src/inbound/resolution.rs:59-72 | the loop computes the tags of the recipients |
| `Resolution.TagsSpec` | api/src/inbound/resolution.rs:53-72 | each parsable tag exactly once |
| `Resolution.ReplyTagIff` | api/src/inbound/resolution.rs:42-51 | a tag is read if and only if it is `t`, an id without a point, a point and a token |
| `Resolution.ConstantTimeEq` | api/src/inbound/resolution.rs:82-91 | the accumulated difference is zero exactly for equal bytes |
| `Resolution.CandidateMessageIds` | api/src/inbound/resolution.rs:99-116 | the parent, then the references from last to first, each once |
| `Resolution.WordsBehindBlank` | api/src/inbound/resolution.rs:99-116 | the ids of a header are what blanks part |
| `Resolution.LastSentIs` | api/src/outbound.rs:83-99 | the parent of a new message is the last message that has an id |
| `Resolution.ThreadingReadsBack` | api/src/outbound.rs:83-99 | the parent is the last sent id, the references are its stored ones and that id; read back, they give the last sent id first, then its references newest to oldest, each once |
| `Resolution.ChainReadsBack` | api/src/outbound.rs:83-99 | for a thread built only this way, with notes and failed sends anywhere in it, that is the exact reverse of the thread |
| `SubjectTags.ParseSubjectTag` | api/src/outbound.rs:168-193 | the loop ends and computes the scan |
| `SubjectTags.ParseU64Iff` | api/src/outbound.rs:168-193 | a number is read if and only if it is digits, perhaps behind one `+`, that denote it within 64 bits |
| `SubjectTags.TagInsideIff` | api/src/outbound.rs:168-193 | behind a `[#` a tag is read if and only if a slug, the last `-` before the first `]`, and a number stand there |
| `SubjectTags.ScanFindsFirst` | api/src/outbound.rs:168-193 | the scan answers what is read at the first place where a tag can be read |
| `SubjectTags.ScanMisses` | api/src/outbound.rs:168-193 | and nothing only if there is no such place |
| `SubjectTags.ValidSlugIsTaggable` | api/src/db.rs:1321-1339 | every valid slug meets what the tag theorems ask of one |
| `SubjectTags.TagSurvives` | api/src/outbound.rs:160-193 | behind any prefix without `[#`, before anything, the tag reads back as its slug and number |
| `SubjectTags.TagBehindPrefix` | api/src/outbound.rs:160-193 | behind any prefix and before anything: if the prefix holds a readable tag that one is read; else this number is, and this slug if and only if the prefix leaves no `[#` open |
| `SubjectTags.NumberSurvives` | api/src/outbound.rs:160-193 | so behind a prefix without `]`, which can hold no tag, the number always reads back, and the slug if and only if the prefix has no `[#` |
| `SubjectTags.TagSubjectSpec` | api/src/outbound.rs:195-205 | a subject with a readable tag stays, any other gets the tag and a space in front; tagging is idempotent and its result parses; it names this ticket if and only if the subject named none or this one |
| `Intake.OneMailKept` | api/src/inbound/pipeline.rs:100-110 | every step keeps a mail with at most one worker, one message and one new ticket, in that order |
| `Intake.OneNumberKept` | api/src/dynamodb.rs:3563-3593 | every step keeps a ticket number with one worker or one ticket, and none beyond the counter |
| `Intake.OncePerMail` | api/src/dynamodb.rs:4299-4336 | over every run, with any redeliveries and crashes, a mail leads to at most one inbound message and at most one new ticket |
| `Intake.NumbersAreUnique` | api/src/dynamodb.rs:4014-4045 | over every run no two tickets of an instance share a number, so the uniqueness check on the number index never errs |
| `Intake.RoutedMessageKept` | api/src/inbound/pipeline.rs:207-334 | every step keeps each message stored for a mail on a ticket of the instance the mail was routed to |
| `Intake.StoredWhereRouted` | api/src/inbound/pipeline.rs:452-519 | over every run, with every read of every walk in a state of its own and any writes between, an inbound message lands only on a ticket of the instance its mail was routed to |
| `Intake.WorkerNamesOwnInstance` | api/src/inbound/pipeline.rs:247-262 | the reopening write of a worker names the ticket's own instance, though the ticket was found earlier |
| `Intake.FailsIffSharedId` | api/src/dynamodb.rs:4256-4295 | in every reachable state the walk errs if and only if no reply tag verifies and the first message id that leads anywhere is carried by two messages |
| `Intake.StoppedIsLost` | api/src/db.rs:1957-1967 | the price: once the worker that claimed a mail stops before storing its message, no later event ever stores one |
| `TicketResolution.BuildPlan` | api/src/inbound/resolution.rs:138-150 | the plan of a mail is the specified one; what it must hold is stated of whole deliveries by `TaggedMailJoins`, `ThreadedMailJoins`, `SubjectMailJoins` and `NewMailOpens` |
| `TicketResolution.ResolveTicket` | api/src/inbound/pipeline.rs:452-519 | the three loops, on tables that stay as they are, compute the specified walk |
| `TicketResolution.Follow` | api/src/dynamodb.rs:4256-4295 | a message id leads to its ticket, nowhere, or to an error exactly when two messages share it |
| `TicketResolution.Confined` | api/src/inbound/pipeline.rs:452-519 | on all three paths of that walk a found ticket belongs to the routed instance |
| `TicketResolution.FirstTagDecides` | api/src/inbound/pipeline.rs:457-477 | on tables that stay as they are, the first verifying tag is final, also when its ticket belongs to another instance |
| `TicketResolution.FirstMessageIdDecides` | api/src/inbound/pipeline.rs:479-496 | on such tables, without a verified tag the first message id that leads anywhere is final |
| `TicketResolution.FailsIff` | api/src/db.rs:1943-1954 | the same over any tables in which no two tickets of the instance share a number |
| `TicketResolution.AwaitConfines` | api/src/inbound/pipeline.rs:452-519 | each read of the walk, whatever tables it sees, keeps the ticket it holds on to inside the instance: when found, and on the subject path already from the number index |
| `WalkOrder.EndsAsRead` | api/src/inbound/pipeline.rs:452-519 | over every run, where a worker's walk ends depends on what its own reads saw and on nothing else |
| `WalkOrder.FirstTagDecidesInRun` | api/src/inbound/pipeline.rs:457-477 | over every run, the first tag of the plan that verified at its own read decides, whatever is written before, between and after |
| `WalkOrder.FirstMessageIdDecidesInRun` | api/src/inbound/pipeline.rs:479-496 | and when none did, the first message id that led anywhere at its own reads |
| `Pipeline.Mailroom.ClaimProcessedMessage` | api/src/dynamodb.rs:4299-4336 | true for exactly one call per id |
| `Pipeline.Mailroom.ScreenMail` | api/src/inbound/pipeline.rs:112-205 | the checks before any ticket is looked at, with the reason of the first that fails |
| `Pipeline.ScreenIff` | api/src/inbound/pipeline.rs:112-205 | which mail is let through, for which instance and in whose name, and the first check that any other mail fails |
| `Pipeline.RejectedLeavesClaim` | api/src/inbound/pipeline.rs:112-205 | a mail that is not let through leaves its claim and nothing else |
| `Pipeline.Mailroom.JoinTicket` | api/src/inbound/pipeline.rs:222-268 | the writes on a ticket that exists |
| `Pipeline.Mailroom.OpenTicket` | api/src/inbound/pipeline.rs:269-292 | the writes of a new ticket, the counter moving even if it is refused |
| `Pipeline.Mailroom.ProcessRawMessage` | api/src/inbound/pipeline.rs:89-370 | the whole delivery leaves exactly the specified state and outcome |
| `Pipeline.SecondDeliveryDoesNothing` | api/src/inbound/pipeline.rs:100-110 | after any delivery of a mail, a second one changes nothing, whatever it says |
| `Pipeline.DeliveredWhereRouted` | api/src/inbound/pipeline.rs:207-350 | a stored message is the only new one, with the mail's headers, on a ticket of the instance its recipients route to; a joined ticket has the sender in it, reopens exactly if closed, and keeps all else but its times and the attachment mark; a new one has the next number, the mail's subject, the drawn reply token, the sender as requester and the stripped copies |
| `Pipeline.CopiesNeverReturn` | api/src/inbound/pipeline.rs:691-713 | no copy of a new ticket routes back to its instance |
| `Pipeline.DeliveredIff` | api/src/inbound/pipeline.rs:199-334 | a claimed message that is let through is stored if and only if the walk found a ticket or none at all, its ids are fresh, and `To` and `Cc` repeat no address; else it is dropped as foreign or errs, its claim stands and no message changed |
| `ReplyMatching.TaggedMailJoins` | api/src/inbound/pipeline.rs:457-477 | of a mail that is let through: the first recipient whose tag names a ticket and holds its token decides, against every other recipient, header and subject; the message is stored on that ticket, or dropped if the ticket is another instance's |
| `ReplyMatching.ReplyJoinsItsTicket` | api/src/outbound.rs:133-141 | so a reply to the Reply-To an instance sends for a ticket, from an address without a `+`, ends up on that ticket, unless an earlier recipient carries another ticket's tag and token |
| `ReplyMatching.ThreadedMailJoins` | api/src/inbound/pipeline.rs:479-496 | without such a recipient, the parent if a message carries its id, else the newest reference one carries, decides, if its ticket is there: the mail joins that ticket, is dropped if it is another instance's, and errs if two messages carry the id |
| `ReplyMatching.SubjectMailJoins` | api/src/inbound/pipeline.rs:498-519 | without either, in every state that keeps the invariant, `[#slug-number]` in the subject behind any text without a readable tag takes the mail to the ticket of the instance with that number |
| `ReplyMatching.NewMailOpens` | api/src/inbound/pipeline.rs:269-292 | and a mail of which nothing leads anywhere opens a ticket of its own |
| `PipelineRuns.WalkRun` | api/src/inbound/pipeline.rs:452-519 | when nobody writes between its reads, the walk read by read ends where the whole walk does |
| `PipelineRuns.ProcessIsRun` | api/src/inbound/pipeline.rs:89-370 | every delivery, read by read and write by write, is a run of the interleaved machine with the same end state |
| `PipelineRuns.ProcessKeepsInv` | api/src/inbound/pipeline.rs:89-370 | so every delivery keeps the machine's invariant |
| `PipelineRuns.SharedIdLosesMail` | api/src/db.rs:1943-1967 | in every reachable state, a mail whose walk meets a shared message id first is claimed and never stored, whatever happens later |
| `MailLosses.RepeatedAddressIsLost` | api/src/inbound/pipeline.rs:307-334 | on empty tables, a mail with an instance's address twice in `To` is let through, opens its ticket, errs, and nothing is stored |
| `MailLosses.SharedIdLosesReply` | api/src/inbound/pipeline.rs:320-329 | in every reachable state with nobody at work: two accepted mails that bring the same message id are delivered, an accepted reply that names it is claimed and errs, and no later event ever stores it |
| `MailLosses.SharedIdRun` | api/src/inbound/pipeline.rs:320-329 | so there is a run from empty tables that ends with such a reply lost |

## Left out

- Paging.Partition.ListPage: runs over an index that does not change during the listing, and going forward; backward paging is modelled only in `BuildConnection`.
- Paging.Partition.ListTickets: the reversal for a `before` cursor is not modelled.
- BatchGet.Table.GetRecords: all attempts see one table; rows that fail to hydrate are not modelled.
- Pipeline.Mailroom.ProcessRawMessage: describes a delivery with no other writer between its own reads and writes, without the relay to other participants, the raw storage key and the attachment list; what interleaving can do is stated over the machine in `Intake.dfy`, whose events are the same reads and writes.
- Intake.OncePerMail: `processed_message` rows expire after 14 days; the model keeps them forever, so a redelivery after that is outside it.
- OAuthRuns.ExchangedOnce: concerns refresh tokens; the read and the delete of an authorization code are separate steps in the source, and codes are not modelled.
- TicketResolution.ResolveTicket: reads one state of the tables; the machine in `Intake.dfy` and the theorems in `WalkOrder.dfy` give each read its own; tokens are compared as strings, and that their UTF-8 bytes agree exactly then is not proved.
- Tickets.HashInIdsLeaks: uses ids with `#`, which the system never mints (ids are alphanumeric), so it bounds the theorem and is no leak among the ids in use; `Unambiguous` is sufficient, not necessary.
- Tickets.QueryIsFilter: two concurrent status and assignee writers may lose an update, since neither is versioned; only the agreement of the index keys is claimed.
- InvoiceTheorems.FinalizedShowsItems: covers item lines and totals; the seller and bill-to parts of a snapshot come from rows that carry no version.
- Infrastructure errors whose outcome is unknown: a call either takes effect or does not, and the caller knows which.
- Eventual consistency of secondary indexes and of the displayed invoice counter: the reads that guard a write are consistent reads.
- Lower-casing outside ASCII; letters there stay as they are in the model.
- Integer overflow of ticket counters, versions and clocks; only the money types and the 32-bit invoice number are bounded.
- Checks of the invoicing resolvers that only reject a request earlier (membership, archived projects, field lengths, dates).
- MIME parsing and building, attachments and their storage, relaying to other participants, staff notices, hashing, nonces, login, WebAuthn.
- The HTML and plain-text bodies, the PDF, the web client, the servers and the command line.
- `pagination_args`, `status_notice_body` and the structural loop check: finite tables that would add only easy members.
