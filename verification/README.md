# PetMatch: verified models of the service cores

This project models the parts of the PetMatch services whose correctness shows only over whole runs, and proves what
they guarantee. Where a service updates state in place, a class does so too and is proved against a specification
function; the theorems are about these functions and about all runs of the machines built from them.

- **Matching** (`MatchingDomain`, `MatchingTables`, `MatchingStore`, `MatchingService`, `MatchingRuns`,
  `MatchingOutcomes`, `MatchingTheorems`): swipes, matches, idempotency keys, availability and the transactional outbox,
  each transaction one atomic step.
- **Outbox publishers** (`Outbox`, `MatchingOutbox`, `Publishers`, `PublisherTheorems`, `OutboxPublisher`,
  `MatchingDelivery`): any number of publishers whose claims, Kafka writes and marks interleave with each other, with
  the store and with crashes.
- **Keyset paging** (`Keyset`, `MatchingPaging`, `MissedMatch`, `BillingPaging`): listings over tables that change
  between requests.
- **Refresh tokens** (`RefreshTokens`, `TokenOutcomes`, `RefreshTokenTheorems`, `RotationRaces`, `TokenService`): issue,
  rotation and reuse detection, the scheme of section 4.14.2 of RFC 9700, with repository calls that may fail part-way
  and rotations that overlap.
- **Password hashes** (`Encoding`, `PasswordHash`): the PHC string that is printed and parsed.
- **Breakers and limiters** (`Breakers`, `TokenBucket`, `FixedWindow`).
- **Feed** (`FeedTypes`, `FeedRanking`, `FeedInterleaving`, `FeedRank`, `FeedPaging`, `FeedDrift`, `FeedFilter`):
  ranking, paging, and the compilation of a filter to SQL against its in-memory meaning.
- **Analytics** (`Analytics`, `AnalyticsTheorems`, `AnalyticsService`): hour and day counters against raw events.
- **Billing** (`BillingDomain`, `Billing`, `BillingRuns`, `BillingOutcomes`, `BillingTheorems`, `BillingBooking`,
  `BillingRaces`, `BillingOverwrites`, `BillingService`): donations, ledger, idempotency records, boosts and
  entitlements.
- **Realtime hub** (`RealtimeHub`, `RealtimeHubTheorems`): subscriptions and buffered channels.

The `Outcomes` modules say when each call is accepted and what it leaves behind, in the terms of its input; the theorems
build on runs of such calls. `Common`, `Text` and `Arithmetic` are shared helpers. `dafny verify dfyconfig.toml` checks
everything.

## How the world is modelled

- A database transaction, or a single statement outside one, is one atomic step. `Outcome` says how it ends for the
  caller: done, not applied, or applied with the answer lost.
- Billing and refresh tokens are coarser in `Billing` and `RefreshTokens`: there a whole call, with its reads, the
  answer of the provider and all its statements, is one step. `BillingRaces` and `RotationRaces` break confirmations and
  rotations into the steps that other calls can come between.
- Identifiers, random tokens, clock readings, the answers of payment provider, Kafka and Redis, and the rows a query
  returns are parameters. Unless a clause says otherwise an identifier may collide, and then the unique index reports
  it.
- A query answer is any sequence that satisfies the query; the methods that scan one require just that.
- Hashing (SHA-256, the idempotency hash) is an injective function; Argon2id is any function of its arguments.
- Times are integers, 0 being the unset time. The breakers and the token bucket assume a non-decreasing clock, and the
  fixed window one clock for all gateways and Redis, by which keys expire.

## Where the code promises less than one would think

These are theorems here, with the exact condition where there is one.

- An outbox event can be lost: a claim costs the whole batch an attempt, a flush returns at the first write that fails,
  and after 20 attempts an event is not claimed again (`PublisherTheorems.PublishableExactly`, `EventLostUnwritten`).
- Of overlapping rotations of one refresh token all that read it before the first revocation succeed, failing statements
  apart, and the family then has as many usable tokens (`RotationRaces.OverlapExactly`, `OneUsablePerWin`).
- A detected reuse revokes its family for good exactly when no rotation has read a token of the family and not yet
  inserted the next; such a rotation can revive the family (`RotationRaces.ReuseIsFinalExactly`).
- A donation is booked a second time exactly when a succeeded one is confirmed under an unused key, be it confirmed
  before or made by the purchase of an entitlement (`BillingBooking.StepBooksOnceExactly`, `PurchaseThenConfirmRun`).
- Of concurrent confirmations under one key all that looked it up before the first commit are booked: the record is
  inserted with "do nothing on conflict" after the ledger entry (`BillingRaces.EntriesRunAheadExactly`,
  `OpensExactlyBeforeFirstWrite`).
- A confirmation writes its donation as it read it. One that is refused can so take back a payment that another has had
  accepted in the meantime, while the ledger keeps its entry; these writes and their like are all that can move a
  donation backwards (`BillingOverwrites.DonationsEvolveExactly`, `RefusalTakesPaymentBack`).
- A confirmation that the provider refuses answers without an error and without a donation, and its key stays free
  (`BillingTheorems.RefusalAnsweredExactly`, `RefusalStaysUnrecorded`).
- A purchase replayed after its entitlement has expired answers "not found" (`BillingTheorems.PurchaseReplayExactly`).
- The two circuit breakers agree exactly for positive arguments; their defaults differ
  (`Breakers.IndistinguishableExactly`).
- The fixed-window limiter keeps its limit in exactly the aligned spans of one window's length; in every other it lets
  through up to twice the limit (`FixedWindow.LimitHoldsExactly`, `SpanMostExactly`).
- The PHC parser accepts a parallelism above 255 and keeps its low byte (`PasswordHash.ParsePrint`).
- A day counter falls short for good as soon as one statement of an ingest is lost or unanswered, save an answer lost
  after the last (`AnalyticsTheorems.DayCounterRightExactly`).
- A feed token counts the cards of the ranking that it meets: a viewer that swipes the cards it gets before it follows
  the token skips as many (`FeedDrift.ServedExactly`, `SwipedPagesSkipAsMany`).
- A listing of matches filtered by status misses a match that has left the filter at the one request its key falls to
  (`MatchingPaging.MatchCrawlFindsExactly`, `MissedMatch.CrawlMissesY`).

## Model

| member | source | states |
|---|---|---|
| MatchingTheorems.SwipesAndMatchesCorrespond | backend/matching-service/internal/infra/postgres/store.go:65-133 | In every reachable state a pair of actor and animal has at most one swipe, and right swipes and matches correspond one to one, with equal actor, animal and owner; uniqueness and existence in both directions |
| MatchingTheorems.OutboxMirrorsTables | backend/matching-service/internal/infra/postgres/store.go:495-560 | In every reachable state the outbox has exactly one event per swipe, one per match, one more per archived match and none for active ones, no other events, and every payload agrees with the tables |
| MatchingTheorems.KeysNameSwipeAndMatch | backend/matching-service/internal/infra/postgres/store.go:407-437 | Each idempotency key names a stored swipe; for a left swipe no match, for a right swipe exactly its one match |
| MatchingTheorems.ReplayIsIdempotent | backend/matching-service/internal/infra/postgres/store.go:72-80 | After a recorded swipe and any run in between, every valid command with the same trimmed key is answered as a replay with the same swipe and the same match and changes no table |
| MatchingTheorems.NoActiveMatchWhileUnavailable | backend/matching-service/internal/app/matching/service.go:115-126 | Once both transactions of making an animal unavailable have committed, with anything between and after them except making it available, the animal has no active match |
| MatchingTheorems.UnavailableRun | backend/matching-service/internal/infra/postgres/store.go:82-84 | While an animal is unavailable its set of active matches never gains a member, over any run that does not make it available |
| MatchingTheorems.MatchesOnlyMoveForward | backend/matching-service/internal/infra/postgres/store.go:136-149 | Over any run a match keeps its people and animal, never leaves the archived state, and never loses or changes a conversation id once it has one |
| MatchingRuns.StepKeeps | backend/matching-service/internal/infra/postgres/store.go:65-405 | Every transaction keeps the invariant (unique pairs, pairing of right swipes and matches, sound keys, exact outbox counts, truthful payloads), and rows only evolve |
| MatchingRuns.RunKeeps | backend/matching-service/internal/infra/postgres/store.go:65-405 | The same over every run |
| MatchingRuns.RecordKeeps | backend/matching-service/internal/infra/postgres/store.go:65-133 | Recording a swipe keeps the invariant, through replay, refusal, left and right swipe |
| MatchingRuns.ArchiveRowsKeep | backend/matching-service/internal/infra/postgres/store.go:301-320 | The archiving loop keeps the invariant row by row |
| MatchingRuns.ArchiveRowsEffect | backend/matching-service/internal/infra/postgres/store.go:301-320 | The archiving loop archives exactly the selected rows and touches nothing else but the outbox |
| MatchingRuns.DeliveryKeeps | backend/matching-service/internal/infra/postgres/store.go:337-405 | Claiming and marking outbox rows keeps what the outbox announces |
| MatchingOutcomes.RecordedExactly | backend/matching-service/internal/infra/postgres/store.go:65-133 | A swipe is recorded if and only if the command is complete, its key unused, the animal offered, the pair not swiped yet and time and drawn identifiers storable; then the swipe has the trimmed actor, animal, owner, card and session of the command, its guest flag, its direction and the time, a match is created exactly for a right swipe, and nothing else changes but their announcements and the key |
| MatchingOutcomes.RefusedExactly | backend/matching-service/internal/infra/postgres/store.go:82-97 | A complete command under an unused key is refused as unavailable exactly for an unavailable animal, and as a duplicate exactly for an offered animal that the actor has swiped |
| MatchingOutcomes.ReplayedExactly | backend/matching-service/internal/infra/postgres/store.go:407-437 | Under a stored key the answer is that key's swipe, match and conversation as they are now, and nothing changes |
| MatchingOutcomes.AttachedExactly | backend/matching-service/internal/infra/postgres/store.go:136-149 | A conversation is attached if and only if the match is stored and has none or this one; then it has it, at that time, and nothing else has changed |
| MatchingOutcomes.AttachedForGood | backend/matching-service/internal/infra/postgres/store.go:136-149 | Over every later run the match keeps it, and exactly the same one can be attached again |
| MatchingOutcomes.ArchivedExactly | backend/matching-service/internal/infra/postgres/store.go:270-320 | Archiving an animal succeeds if and only if time and drawn identifiers are storable; then exactly its active matches are archived at that time, each announced once with the reason, and answered in order |
| MatchingOutcomes.OfferedAsSet | backend/matching-service/internal/infra/postgres/store.go:323-334 | What is set is what the next swipe of that animal finds, and no other animal is touched |
| MatchingOutcomes.HandledExactly | backend/matching-service/internal/app/matching/service.go:103-140 | A consumed conversation or availability event acts on its trimmed identifiers, and one without them does nothing |
| MatchingOutcomes.ArchivingHandledExactly | backend/matching-service/internal/app/matching/service.go:103-112 | An archiving is refused exactly without an animal, and otherwise archives with the trimmed reason |
| Text.TrimSpaceCuts | backend/matching-service/internal/domain/matching/model.go:66-89 | Trimming cuts white space and nothing else off both ends, and all of it |
| Text.SpacesExactly | backend/matching-service/internal/domain/matching/model.go:66-89 | The twenty-five characters that are white space |
| MatchingDomain.NewSwipe | backend/matching-service/internal/domain/matching/model.go:66-89 | An accepted swipe has an id, both people, an animal and a left or right direction |
| MatchingDomain.NewMatchFromSwipe | backend/matching-service/internal/domain/matching/model.go:92-117 | A match starts active, with an id and without a conversation |
| MatchingDomain.NewMatchIsTwin | backend/matching-service/internal/domain/matching/model.go:92-117 | A swipe built from a command yields a match exactly when it is a right swipe, and then with its people and animal |
| MatchingStore.Store.RecordSwipe | backend/matching-service/internal/infra/postgres/store.go:65-133 | The transaction, on working copies assigned at commit, yields the tables and the reply of the specification, rolling back on every error |
| MatchingStore.Store.FindIdempotency | backend/matching-service/internal/infra/postgres/store.go:407-437 | The lookup answers a stored key as a replay, and fails on a key whose rows are missing |
| MatchingStore.Store.UpdateMatchConversation | backend/matching-service/internal/infra/postgres/store.go:136-149 | The conversation is attached only where there is none or the same one; otherwise not found, and nothing changes |
| MatchingStore.Store.ArchiveMatchesByAnimal | backend/matching-service/internal/infra/postgres/store.go:270-320 | All active matches of the animal are archived and announced, or on an error none |
| MatchingStore.Store.ArchiveSelected | backend/matching-service/internal/infra/postgres/store.go:301-320 | The loop over the selected rows, against the recursive specification of the transaction, including its failing iterations |
| MatchingStore.Store.SetAnimalAvailability | backend/matching-service/internal/infra/postgres/store.go:323-334 | The upsert of the availability row |
| MatchingStore.Store.FetchOutbox | backend/matching-service/internal/infra/postgres/store.go:337-375 | The claim leases the picked rows and spends one attempt on each |
| MatchingStore.Store.MarkOutboxPublished | backend/matching-service/internal/infra/postgres/store.go:378-388 | The row is published and its lease released |
| MatchingStore.Store.MarkOutboxFailed | backend/matching-service/internal/infra/postgres/store.go:391-405 | The lease is released and the cause noted; the attempt stays spent |
| MatchingService.Service.RecordSwipe | backend/matching-service/internal/app/matching/service.go:27-48 | Validation on the raw command, recording of the normalized one, and the conversation in the reply |
| MatchingService.Service.HandleAnimalStatusChanged | backend/matching-service/internal/app/matching/service.go:115-126 | Availability first, then archiving only when the animal became unavailable; a blank id changes nothing |
| MatchingService.Service.HandleAnimalArchived | backend/matching-service/internal/app/matching/service.go:103-112 | Archives by trimmed id, or refuses a blank one |
| MatchingService.Service.HandleConversationCreated | backend/matching-service/internal/app/matching/service.go:129-140 | Attaches by trimmed ids, or refuses blank ones |
| Outbox.ClaimDelivers | backend/matching-service/internal/infra/postgres/store.go:337-375 | A claim keeps every row and its event, never touches a published row, and keeps attempts within 20 |
| Outbox.MarksDeliver | backend/matching-service/internal/infra/postgres/store.go:378-405 | Marking keeps every row and its event and changes no attempt count |
| Outbox.PickSize | backend/matching-service/internal/infra/postgres/store.go:337-366 | A claim takes as many events as asked for, 50 for a size outside 1 to 100, or all there are |
| Outbox.ClaimHolds | backend/matching-service/internal/infra/postgres/store.go:353-366 | A claimed event can be claimed again exactly after thirty seconds and while it has had fewer than 20 attempts |
| Outbox.FailureFrees | backend/matching-service/internal/infra/postgres/store.go:391-405 | After a failure mark an unpublished event with fewer than 20 attempts can be claimed at once, whenever that is, and shows the cause; no other row changes |
| Outbox.PublicationEnds | backend/matching-service/internal/infra/postgres/store.go:378-388 | A publication is dated, clears the cause and takes the event out of every later claim; no other row changes |
| MatchingOutbox.DomainStepsAreInsertions | backend/matching-service/internal/infra/postgres/store.go:549-560 | Every step of the store is, on the outbox, an insertion of new rows, a claim or a mark, so that the publishers' world covers it |
| MatchingDelivery.RunKeeps | backend/matching-service/internal/infra/kafka/outbox.go:86-112 | Store transactions and the micro-steps of any number of publishers together, over every run: the tables are such as the store alone can reach and the delivery such as the publishers alone can reach, so that the theorems on either hold of the whole |
| MatchingDelivery.DeliveryIsTruthful | backend/matching-service/internal/infra/kafka/outbox.go:86-112 | Over all runs of the whole system from empty tables: every swipe, match and archival has its one event; whatever is written to Kafka is such an event, truthful of the tables, written at most once per attempt and at most 20 times, and marked only after Kafka acknowledged a write; and it can still be published exactly when it is published, has attempts left or is in hand |
| Publishers.ActKeeps | backend/matching-service/internal/infra/kafka/outbox.go:86-112 | Every micro-step of any publisher (claim, write, mark, crash), of the store and of the clock keeps: attempts at most 20, every write and every held event paid for by an attempt, published only after a write that Kafka acknowledged |
| Publishers.RunKeeps | backend/matching-service/internal/infra/kafka/outbox.go:86-112 | Over all interleavings of any number of publishers, with failing statements and writes, the same, and a published row is never claimed, unmarked or written on a new attempt |
| PublisherTheorems.NoEventHeldTwice | backend/matching-service/internal/infra/kafka/outbox.go:86-112 | If every flush ends inside its 30 s lease no event is ever in the hands of two publishers |
| PublisherTheorems.NeverHeldTwice | backend/matching-service/internal/infra/kafka/outbox.go:86-112 | The same of every timely run from an empty outbox with no publisher at work |
| PublisherTheorems.SlowFlushSharesItsEvent | backend/matching-service/internal/infra/kafka/outbox.go:86-112 | Without that it can be: a concrete run in which a second claim takes the event of a flush that outlived its lease |
| PublisherTheorems.SecondClaimExactly | backend/matching-service/internal/infra/postgres/store.go:353-375 | Of the events in one publisher's batch, the claim of another idle one can take exactly those that are unpublished, have attempts left, whose lease has run out, and that fewer older claimable ones than a batch holds are ahead of |
| PublisherTheorems.PublishableExactly | backend/matching-service/internal/infra/postgres/store.go:353-375 | An event can still be published, by some run, exactly when it is published already, has attempts left, or is in hand |
| PublisherTheorems.LostForever | backend/matching-service/internal/infra/postgres/store.go:353-375 | An event that is none of these is published by no run |
| PublisherTheorems.Drain | backend/matching-service/internal/infra/kafka/outbox.go:86-112 | An idle publisher working undisturbed reaches every claimable event, oldest first |
| PublisherTheorems.EventLostUnwritten | backend/matching-service/internal/infra/kafka/outbox.go:103-106 | For any two new events with a batch of two there is a run that spends all attempts of one of them without a single write, after which no run publishes it |
| OutboxPublisher.Publisher.Flush | backend/matching-service/internal/infra/kafka/outbox.go:86-112 | The loop is one of the runs of the publishers' world, stops at the first write or mark that fails, leaves the table that the recursive specification says, and succeeds exactly when every turn did |
| OutboxPublisher.Publisher.PublishOne | backend/matching-service/internal/infra/kafka/outbox.go:92-109 | One turn: write, then mark published or failed, going on only if both went well |
| OutboxPublisher.SettlePublishes | backend/matching-service/internal/infra/kafka/outbox.go:86-112 | After a flush every event up to the first turn that went wrong is published |
| OutboxPublisher.SettleLeavesRest | backend/matching-service/internal/infra/kafka/outbox.go:103-106 | The rows after that turn are exactly as they were claimed, leased and one attempt poorer |
| OutboxPublisher.FailedTurnExactly | backend/matching-service/internal/infra/kafka/outbox.go:103-109 | Of the event at the first turn of a flush that goes wrong: claimable at once if its write failed and the mark applied, only after its lease if the mark did not apply, never again if it was marked published, and in any case only before its twentieth attempt |
| Keyset.CrawlIsComplete | backend/matching-service/internal/infra/postgres/store.go:165-208 | If rows are only inserted between requests, a crawl from the empty to the empty token returns every row that was there at the start exactly once, none twice, strictly descending in (time, id), and nothing that was never stored |
| Keyset.CrawlDescends | backend/matching-service/internal/infra/postgres/store.go:165-208 | Whatever happens to the table, even deletions, the rows gathered descend strictly |
| Keyset.CrawlFindsStayingRow | backend/matching-service/internal/infra/postgres/store.go:165-208 | A row that is in the table at every request is gathered |
| Keyset.CrawlFindsExactly | backend/matching-service/internal/infra/postgres/store.go:165-208 | Whatever happens to the table, each key falls to exactly one request of a finished crawl, and the crawl gathers it if and only if it is in the table at that request |
| Keyset.FixedCrawl | backend/billing-service/internal/infrastructure/postgres/scan.go:33-52 | On a fixed table the pages put together are the whole listing |
| Keyset.FixedCrawlLength | backend/billing-service/internal/infrastructure/postgres/scan.go:33-52 | That takes max(1, ceil(n / size)) requests |
| Keyset.NextListing | backend/billing-service/internal/infrastructure/postgres/scan.go:45-50 | The cursor of a page leaves exactly the rest of the listing below it |
| Keyset.ListingUnique | backend/matching-service/internal/infra/postgres/store.go:178-183 | A table has one descending listing; it is a total order by time, then identifier |
| Keyset.NewestFirst | backend/matching-service/internal/infra/postgres/store.go:178-183 | A listing goes back in time, and within a moment back in the order of identifiers |
| Keyset.TextLessExactly | backend/matching-service/internal/infra/postgres/store.go:178-183 | Identifiers are compared at the first character in which they differ, a prefix coming first |
| Keyset.Collect | backend/billing-service/internal/infrastructure/postgres/scan.go:33-52 | The scan of a query for one row more than the page yields the page and a cursor exactly when the extra row came |
| Keyset.CutIsPage | backend/billing-service/internal/infrastructure/postgres/scan.go:33-52 | That cut of that query is the page the table calls for |
| MatchingPaging.ListSwipes | backend/matching-service/internal/infra/postgres/store.go:165-208 | The reply is the page of the actor's swipes that the tables call for, of stored swipes, with sizes normalized to 1..100 and 50 by default; exactly blank actors and bad tokens are refused |
| MatchingPaging.ListMatches | backend/matching-service/internal/infra/postgres/store.go:224-267 | The same for the matches of an adopter or owner |
| MatchingPaging.TokensAreAccepted | backend/matching-service/internal/infra/postgres/store.go:684-701 | In every reachable state the token of any row is accepted by the next request |
| MatchingPaging.RefusedTokensExactly | backend/matching-service/internal/infra/postgres/store.go:684-701 | A token is refused exactly when it is malformed or lacks an identifier or a time |
| MatchingPaging.SwipeListedExactly | backend/matching-service/internal/infra/postgres/store.go:165-183 | A stored swipe is listed exactly to its actor and under its direction |
| MatchingPaging.MatchListedExactly | backend/matching-service/internal/infra/postgres/store.go:224-242 | A stored match is listed exactly to its adopter and its owner and under its status |
| MatchingPaging.SwipeCrawlIsComplete | backend/matching-service/internal/infra/postgres/store.go:165-208 | Whatever runs of the store happen between the requests, a finished crawl has every swipe that matched at its start exactly once and none twice |
| MatchingPaging.MatchCrawlFindsStaying | backend/matching-service/internal/infra/postgres/store.go:224-267 | A match that passes the status filter at each request is returned exactly once although others leave the listing meanwhile; without a filter that is every match |
| MatchingPaging.MatchCrawlFindsExactly | backend/matching-service/internal/infra/postgres/store.go:224-267 | Over any runs of the store between the requests, a finished crawl returns a match if and only if it passes the filter at the one request that its key falls to |
| MatchingPaging.ArchivedBeforeItsPageIsMissed | backend/matching-service/internal/infra/postgres/store.go:224-267 | Of any two active matches listed one to a page, the older is missed when its animal is archived before the second request |
| MissedMatch.CrawlMissesY | backend/matching-service/internal/infra/postgres/store.go:224-320 | Such a run from empty tables: two likes, one page, the archiving of the older animal, and a crawl that ends without its match |
| BillingPaging.ListDonations | backend/billing-service/internal/infrastructure/postgres/store.go:157-178 | The reply is the page of the selected donations, or a validation error exactly for a token that does not decode |
| BillingPaging.ListLedgerEntries | backend/billing-service/internal/infrastructure/postgres/store.go:271-290 | The same for ledger entries |
| BillingPaging.DonationListedExactly | backend/billing-service/internal/infrastructure/postgres/store.go:157-178 | A stored donation is listed exactly under its payer or none and under its target type or none |
| BillingPaging.EntryListedExactly | backend/billing-service/internal/infrastructure/postgres/store.go:271-290 | A ledger entry is listed exactly under its profile or none |
| BillingPaging.RefusedTokensExactly | backend/billing-service/internal/infrastructure/postgres/scan.go:77-100 | A token is accepted exactly when it is empty or the base64 of a time that reads, a separator and an identifier |
| BillingPaging.DonationCrawlIsComplete | backend/billing-service/internal/infrastructure/postgres/store.go:157-178 | Runs of the service between the requests, status changes included, do not disturb a crawl of the donations |
| BillingPaging.LedgerCrawlIsComplete | backend/billing-service/internal/infrastructure/postgres/store.go:271-290 | A crawl of the ledger returns each entry that was there at its start exactly once |
| BillingPaging.CursorRoundTrip | backend/billing-service/internal/infrastructure/postgres/scan.go:77-100 | Reading a cursor gives back its time and identifier, even with a separator in the identifier, and refuses exactly the empty identifier |
| RefreshTokens.CallKeeps | backend/auth-service/internal/usecase/token.go:37-96 | Every issue, rotation and revocation, with each repository call failing before or after it takes effect, keeps: hashes unique, and each family's handed-out tokens a chain of which all but the last are revoked |
| RefreshTokens.RunKeeps | backend/auth-service/internal/usecase/token.go:37-96 | The same over every run |
| RefreshTokens.UnrevokedIsLast | backend/auth-service/internal/usecase/token.go:46-71 | Only the last token a family handed out can be unrevoked |
| TokenOutcomes.IssuedExactly | backend/auth-service/internal/usecase/token.go:37-43 | A first token is issued if and only if the draws are there and unused and the insert is answered; the caller gets the raw value of the stored token, which is that of the tenant and user asked for and lives for the configured time |
| TokenOutcomes.RotatedExactly | backend/auth-service/internal/usecase/token.go:46-71 | A presented token is rotated if and only if it is not expired and not revoked, the draws fit and every statement is answered; the caller gets the raw value of a successor of the same tenant, user and family that lives for the configured time, and the token is revoked as rotated; it is reported expired exactly after its expiry |
| TokenOutcomes.ReusedExactly | backend/auth-service/internal/usecase/token.go:55-60 | A detected reuse revokes the family's tokens, keeping earlier revocation times, and touches no other family |
| TokenOutcomes.InvalidExactly | backend/auth-service/internal/usecase/token.go:46-51 | What is no token, or cannot be read, is refused as invalid, and nothing else is |
| TokenOutcomes.IssuedWorks | backend/auth-service/internal/usecase/token.go:37-43 | The raw value handed out by an issue, presented before its expiry with fresh draws and answered statements, rotates that very token |
| TokenOutcomes.RotatedWorks | backend/auth-service/internal/usecase/token.go:46-71 | So does the raw value handed out by a rotation |
| RefreshTokenTheorems.OneUsableTokenPerFamily | backend/auth-service/internal/usecase/token.go:46-71 | In every reachable state a family has at most one token that is unrevoked and in a caller's hands |
| RefreshTokenTheorems.RotationExtendsChain | backend/auth-service/internal/usecase/token.go:61-70 | A successful rotation takes the last token of the chain, revokes it and appends its successor |
| RefreshTokenTheorems.RevokedNeverRotates | backend/auth-service/internal/adapters/postgres/repository.go:136-144 | A revoked token stays revoked over every run and is never rotated again |
| RefreshTokenTheorems.RotatedAtMostOnce | backend/auth-service/internal/usecase/token.go:46-71 | Every token is rotated at most once, over any run |
| RefreshTokenTheorems.ReuseReportedExactly | backend/auth-service/internal/usecase/token.go:48-60 | Reuse is reported if and only if the token is stored, not expired and revoked, and both the read and the revocation of the family succeed |
| RefreshTokenTheorems.ReuseKillsFamily | backend/auth-service/internal/adapters/postgres/repository.go:147-155 | When reuse is reported every token of the family is revoked |
| RefreshTokenTheorems.ReuseIsFinal | backend/auth-service/internal/usecase/token.go:55-60 | After one reported reuse every token of the family stays revoked and the family gains none, over every later run |
| RefreshTokenTheorems.SecondUseRevokesSuccessor | backend/auth-service/internal/usecase/token.go:46-71 | Presenting a rotated token again takes its successor away |
| RotationRaces.SessionIsRotate | backend/auth-service/internal/usecase/token.go:46-71 | A rotation broken into its read, insert and revocation, which nothing interrupts, is the atomic rotation of the other theorems, in tables and answer and with the same failures |
| RotationRaces.RunKeeps | backend/auth-service/internal/usecase/token.go:46-71 | Over every interleaving of rotations with failing statements and crashes: hashes and ids stay unique, tokens stay, revocations stay, and what each rotation has read or made fits the table |
| RotationRaces.OverlapExactly | backend/auth-service/internal/usecase/token.go:46-71 | Over every interleaving of any rotations, one that ends in a new token or a reuse report ends in a new token if and only if its read came before the first revocation of its token, by whichever rotation or reuse |
| RotationRaces.OneUsablePerWin | backend/auth-service/internal/usecase/token.go:46-71 | Any number of rotations of the one usable token of a family, in any interleaving: unless a reuse revoked the family, it ends with one usable token per success, and with the token itself if it is unrevoked |
| RotationRaces.RaceBegins | backend/auth-service/internal/usecase/token.go:46-71 | In every reachable state a usable token is its family's only one, so that every race for it starts as that theorem asks |
| RotationRaces.ReuseIsFinalExactly | backend/auth-service/internal/usecase/token.go:55-70 | A detected reuse whose revocation takes effect leaves the family without a usable token over every later run, with whatever rotations follow or are under way, if and only if no rotation of the family had then read its token and not yet inserted the next |
| RotationRaces.ReuseMissesPendingRotation | backend/auth-service/internal/usecase/token.go:55-70 | A rotation that has read its token and not yet inserted the next can survive the revocation of its family after a detected reuse: it succeeds and leaves the family exactly its new token usable |
| TokenService.Service.IssueRefreshToken | backend/auth-service/internal/usecase/token.go:37-43 | The steps on the table yield the specification's table and reply |
| TokenService.Service.RotateRefreshToken | backend/auth-service/internal/usecase/token.go:46-71 | The same for a rotation, with the branch order of expiry, reuse, issue and revocation |
| TokenService.Service.CreateRefreshToken | backend/auth-service/internal/adapters/postgres/repository.go:108-117 | The insert refuses a stored id or hash |
| TokenService.Service.RevokeRefreshToken | backend/auth-service/internal/adapters/postgres/repository.go:136-144 | Revocation is written once |
| TokenService.Service.RevokeRefreshTokenFamily | backend/auth-service/internal/adapters/postgres/repository.go:147-155 | It reaches exactly the family and keeps earlier revocations |
| PasswordHash.ParsePrint | backend/auth-service/internal/adapters/hasher/argon2id.go:46-120 | For all counts, salts and keys the parser returns what was printed when they fit 32 bits, with the parallelism cut to a byte as the code does, and an error exactly when one does not fit |
| PasswordHash.ParseOwnPrint | backend/auth-service/internal/adapters/hasher/argon2id.go:72-108 | A hash printed with a hasher's own parameters is read back as exactly these |
| PasswordHash.PrintInjective | backend/auth-service/internal/adapters/hasher/argon2id.go:46-60 | Different hashes print differently |
| PasswordHash.PrintSplit | backend/auth-service/internal/adapters/hasher/argon2id.go:73-76 | The printed form has exactly six parts, because neither settings nor base64 hold the separator |
| PasswordHash.HashForm | backend/auth-service/internal/adapters/hasher/argon2id.go:46-60 | The printed hash in full: algorithm, version, the three parameters, salt and key in unpadded standard base64, the key being Argon2id's for password, salt and each parameter |
| PasswordHash.ParsedExactly | backend/auth-service/internal/adapters/hasher/argon2id.go:72-120 | A string is read as a hash if and only if it has the six parts, this algorithm and version, the three settings in order with decimal numbers of 32 bits, and base64 for salt and key |
| PasswordHash.VerifyHash | backend/auth-service/internal/adapters/hasher/argon2id.go:63-70 | A stored hash accepts exactly the passwords that derive the same key, and so always its own |
| Encoding.SplitJoin | backend/auth-service/internal/adapters/hasher/argon2id.go:73-80 | Splitting undoes joining for parts without the separator |
| Encoding.JoinSplit | backend/auth-service/internal/adapters/hasher/argon2id.go:73-80 | Joining undoes splitting for every string |
| Encoding.ParseDecimal | backend/auth-service/internal/adapters/hasher/argon2id.go:110-120 | Reading a printed number gives it back, or fails, exactly by the bound |
| Encoding.ReadsExactly | backend/auth-service/internal/adapters/hasher/argon2id.go:110-120 | A number is read exactly from one or more digits whose value fits |
| Encoding.KnownVectors | backend/auth-service/internal/adapters/hasher/argon2id.go:46-60 | Vectors of section 10 of RFC 4648, and the digits in which the two alphabets differ |
| Encoding.DigitsFollow | backend/auth-service/internal/adapters/hasher/argon2id.go:46-60 | The letters of both cases and the ten digits follow each other in the alphabets as in ASCII |
| Encoding.AtoiNegative | backend/feed-service/internal/feed/service.go:438-441 | A number with a minus sign is read down to the least of 64 bits |
| Encoding.DigitsSpellBytes | backend/auth-service/internal/adapters/hasher/argon2id.go:46-60 | Three bytes and their four digits are the same number, and a last group is filled up with zeros |
| Encoding.Base64RoundTrip | backend/auth-service/internal/adapters/hasher/argon2id.go:93-100 | Decoding undoes unpadded encoding for all bytes, in the standard and the URL alphabet (sections 4 and 5 of RFC 4648) |
| Breakers.SameAnswers | backend/matching-service/internal/pkg/resilience/breaker.go:42-81 | With equal positive arguments and a non-decreasing clock the two breakers give the same answers on every trace of admissions, successes and failures, results of calls admitted before opening included |
| Breakers.IndistinguishableExactly | backend/billing-service/internal/application/breaker.go:20-52 | They are indistinguishable on all traces if and only if threshold and time-out are positive; otherwise their defaults differ and a trace tells them apart |
| Breakers.ClosedExactlyBelowThreshold | backend/matching-service/internal/pkg/resilience/breaker.go:54-81 | After every trace the three-state breaker is closed exactly while it counts fewer failures than its threshold |
| Breakers.StateExactly | backend/matching-service/internal/pkg/resilience/breaker.go:30-82 | After every trace the three-state breaker is closed, open or half-open as the failures since the last success, the last failure's time and later calls say, and refuses exactly so; arguments that are not positive stand for 5 failures and 30 seconds |
| Breakers.DeadlineExactly | backend/billing-service/internal/application/breaker.go:20-53 | After every trace the other breaker refuses exactly while enough failures have come since the last success and the last of them is recent; arguments that are not positive stand for 3 failures and 1 second |
| Breakers.MatchingBreaker.Before | backend/matching-service/internal/pkg/resilience/breaker.go:54-64 | The three-state admission |
| Breakers.MatchingBreaker.AfterFailure | backend/matching-service/internal/pkg/resilience/breaker.go:66-74 | The three-state failure step |
| Breakers.BillingBreaker.Execute | backend/billing-service/internal/application/breaker.go:30-52 | A call through the counter-plus-deadline breaker: refused without running, or run and settled |
| TokenBucket.AdmitsExactly | backend/notification-service/internal/pkg/resilience/ratelimiter.go:20-35 | A call is admitted if and only if every window that ends at it has room for it beside the calls admitted in that window: burst plus rate times duration |
| TokenBucket.WindowBound | backend/notification-service/internal/pkg/resilience/ratelimiter.go:20-35 | In every window at most burst + rate * duration calls are admitted |
| TokenBucket.FullyAdmittedExactly | backend/notification-service/internal/pkg/resilience/ratelimiter.go:20-35 | Traffic is admitted in full if and only if it keeps to that contract by itself |
| TokenBucket.SpacedCallsAdmitted | backend/notification-service/internal/pkg/resilience/ratelimiter.go:20-35 | With a burst of at least one, calls at least 1/rate apart are never refused |
| TokenBucket.TokensInRange | backend/notification-service/internal/pkg/resilience/ratelimiter.go:20-35 | Tokens stay between zero and the burst |
| TokenBucket.RateLimiter.Allow | backend/notification-service/internal/pkg/resilience/ratelimiter.go:20-35 | The updates of tokens and time yield the specification's bucket and answer |
| FixedWindow.CounterCountsHits | backend/api-gateway/internal/infra/redislimiter/limiter.go:30-50 | With windows of whole seconds no counter is lost or reset inside its window: it holds the hits of its window |
| FixedWindow.FirstHitExpires | backend/api-gateway/internal/infra/redislimiter/limiter.go:37-46 | The first hit makes its counter live for exactly two windows, and so through its own |
| FixedWindow.AdmittedAtOnce | backend/api-gateway/internal/infra/redislimiter/limiter.go:31-52 | A call without a key is let through and counted nowhere, and an admitted one is told to wait for nothing |
| FixedWindow.NamedByUnixTime | backend/api-gateway/internal/infra/redislimiter/limiter.go:34-36 | The counter of a call bears the Unix time at which its window starts |
| FixedWindow.AdmittedExactly | backend/api-gateway/internal/infra/redislimiter/limiter.go:30-50 | A call is admitted exactly when Redis answers and at most limit calls of its key have hit its aligned window, itself included |
| FixedWindow.WindowBound | backend/api-gateway/internal/infra/redislimiter/limiter.go:30-50 | Every aligned window admits at most limit calls of a key |
| FixedWindow.SpanBound | backend/api-gateway/internal/infra/redislimiter/limiter.go:30-50 | Any half-open span of one window's length admits at most twice the limit |
| FixedWindow.SpanMostExactly | backend/api-gateway/internal/infra/redislimiter/limiter.go:30-50 | For every start, the most that a half-open span of one window's length admits is the limit if the start is aligned and twice the limit otherwise: a bound for all calls, and reached by some |
| FixedWindow.LimitHoldsExactly | backend/api-gateway/internal/infra/redislimiter/limiter.go:30-50 | So for a positive limit, all calls keep to it in a span of one window's length if and only if the span is an aligned window |
| FixedWindow.StraddleSpan | backend/api-gateway/internal/infra/redislimiter/limiter.go:30-50 | Twice the limit is reached by calls at any moment after the start of a window and at its end |
| FixedWindow.RetryAtNextWindow | backend/api-gateway/internal/infra/redislimiter/limiter.go:46-48 | A refused caller is told to wait exactly until the next window |
| FixedWindow.Limiter.Allow | backend/api-gateway/internal/infra/redislimiter/limiter.go:30-50 | Increment, expiry on the first hit, and decision yield the specification's store and reply |
| FeedRank.RankExactly | backend/feed-service/internal/feed/service.go:306-343 | Ranking is a permutation; each class is stably sorted by score; every prefix of length n holds exactly max(min(B, ceil(n / (k + 1))), n - O) boosted cards |
| FeedRank.BoostLeadsExactly | backend/feed-service/internal/feed/service.go:306-343 | A boosted animal leads the ranking if and only if there is one, and without one the ranking is by score alone |
| FeedRank.PrefixExactly | backend/feed-service/internal/feed/service.go:323-342 | The closed form for any interleaving of any two class lists |
| FeedRank.InterleaveKeeps | backend/feed-service/internal/feed/service.go:323-342 | Interleaving keeps each class whole and in order |
| FeedInterleaving.ClosedForm | backend/feed-service/internal/feed/service.go:323-342 | The number of boosted cards counted turn by turn is the closed form |
| FeedInterleaving.PositionExactly | backend/feed-service/internal/feed/service.go:323-342 | Which card stands at each position |
| FeedRanking.SortIsStable | backend/feed-service/internal/feed/service.go:462-466 | Sorting is a permutation, descending by score and stable |
| FeedRanking.StableSortUnique | backend/feed-service/internal/feed/service.go:462-466 | There is only one such order, so it does not matter how it is computed |
| FeedRank.RankCandidates | backend/feed-service/internal/feed/service.go:306-343 | The loops compute the ranking |
| FeedRank.TakeTurn | backend/feed-service/internal/feed/service.go:327-334 | One turn of the outer loop: one boosted card, then up to k organic ones |
| FeedPaging.FilterCandidates | backend/feed-service/internal/feed/service.go:374-403 | The filtering loop yields exactly the candidates the viewer may see, in order |
| FeedPaging.TokenRoundTrip | backend/feed-service/internal/feed/service.go:424-460 | A token is never empty and reads back as its offset |
| FeedPaging.CrawlIsRest | backend/feed-service/internal/feed/service.go:447-460 | Following the tokens over an unchanged ranking yields the rest of it, without gap or repetition, even with page sizes that differ |
| FeedPaging.CrawlLength | backend/feed-service/internal/feed/service.go:424-460 | With one page size, clamped to 1..50, that takes max(1, ceil(n / size)) requests |
| FeedPaging.FeedServesExactly | backend/feed-service/internal/feed/service.go:163-224 | A client that follows the tokens gets the ranking of exactly the candidates that pass all filters: each once, no other |
| FeedPaging.ShownExactly | backend/feed-service/internal/feed/service.go:374-411 | Over all pages a candidate is served if and only if it has an animal that is neither excluded nor seen, its owner is neither hidden nor blocked nor the viewer, it is available, and it is public, or unlisted on the owner's profile |
| FeedDrift.ServedExactly | backend/feed-service/internal/feed/service.go:163-201 | However the ranking changes between requests, a card is served if and only if at one of the requests made its position in the ranking of that moment lies in the request's window, which the page sizes before it fix |
| FeedDrift.PagesAreWindows | backend/feed-service/internal/feed/service.go:163-201 | Each page is such a window, and another page follows exactly while that ranking reaches beyond it |
| FeedDrift.SwipedPagesSkipAsMany | backend/feed-service/internal/feed/service.go:181-201 | A viewer that swipes all the cards it has got before following the token gets, of what is left, all but the first as many cards, none of which it was served before |
| FeedPaging.ServePage | backend/feed-service/internal/feed/service.go:186-189 | Filtering, ranking and paging composed; an error exactly for a bad token |
| FeedFilter.ListCandidatesSql | backend/feed-service/internal/adapters/postgres/store.go:481-523 | The compiled clause, evaluated with each placeholder bound to its argument, selects the row of a candidate exactly when the in-memory filter accepts the candidate; placeholders are numbered by the arguments there are |
| FeedFilter.MatchesExactly | backend/feed-service/internal/adapters/memory/store.go:368-398 | A candidate passes the filter if and only if it has each of the things that the filter asks for; without an animal it passes anyway |
| FeedFilter.CompileFilter | backend/feed-service/internal/adapters/postgres/store.go:481-523 | The conditions appended one by one are the conjunction of the filter's set fields |
| FeedFilter.ConditionsMatch | backend/feed-service/internal/adapters/memory/store.go:368-416 | On the row of a candidate the column conditions say what the in-memory filter says |
| FeedFilter.AddHolds | backend/feed-service/internal/adapters/postgres/store.go:485-488 | Appending a predicate with its argument adds exactly its own condition and disturbs no earlier placeholder |
| Analytics.StepKeeps | backend/analytics-service/internal/application/service.go:37-60 | Over all interleavings of ingests with failing statements and crashes each counter holds exactly the number of stored events that have raised it |
| Analytics.RunKeeps | backend/analytics-service/internal/application/service.go:37-60 | The same over every run |
| AnalyticsTheorems.CountersLagBehindEvents | backend/analytics-service/internal/application/service.go:37-60 | For every profile, type and day, after every run: stored events >= sum of the day's hour counters >= day counter |
| AnalyticsTheorems.QuietCountersAgree | backend/analytics-service/internal/application/service.go:37-60 | With no statement lost and no ingest in flight the three are equal |
| AnalyticsTheorems.DayCounterRightExactly | backend/analytics-service/internal/application/service.go:37-60 | Over every run from empty tables, a day counter equals the number of stored events of its day if and only if for every statement that stored one of them its answer arrived, the ingest's hour statement applied and was answered, and its day statement applied |
| AnalyticsTheorems.RedeliveriesChangeNothing | backend/analytics-service/internal/infrastructure/postgres/repository.go:34-45 | A run with redeliveries anywhere in it ends in the same tables as the run without them |
| AnalyticsTheorems.StoredExactly | backend/analytics-service/internal/application/service.go:37-52 | An event is stored if and only if it has its three identifiers and one of the ten types, its identifier is new and the insert takes effect; without a time it takes the clock's |
| AnalyticsTheorems.SumCountsEvents | backend/analytics-service/internal/infrastructure/postgres/repository.go:106-111 | The counters of any set of buckets of one size add up to the number of events counted in one of them |
| AnalyticsTheorems.DayOfHour | backend/analytics-service/internal/domain/event.go:60-70 | Truncating to the hour first does not change the day |
| AnalyticsTheorems.SameBucketExactly | backend/analytics-service/internal/domain/event.go:60-70 | Two moments share a minute, hour or day bucket exactly when equally many whole minutes, hours or days of 24 hours have passed |
| AnalyticsTheorems.StatsCountEvents | backend/analytics-service/internal/infrastructure/postgres/repository.go:106-148 | With no statement lost and no ingest in flight each reported number is a direct count of the stored events over the inclusive normalized day range |
| AnalyticsTheorems.StatsNeverOvercount | backend/analytics-service/internal/infrastructure/postgres/repository.go:106-148 | After any run it is at most that count |
| AnalyticsTheorems.ScanRows | backend/analytics-service/internal/infrastructure/postgres/repository.go:117-147 | The row loop puts each type's value into its field whatever the order of the rows, ignores other types, and divides only when there are impressions |
| AnalyticsTheorems.AnswerValues | backend/analytics-service/internal/infrastructure/postgres/repository.go:107-111 | In an answer of the grouped query a type without a row has the sum 0, and every other its sum |
| AnalyticsService.Service.IngestEvent | backend/analytics-service/internal/application/service.go:37-60 | The three writes in order move the tables as the ingest's steps do, leave no session, and succeed exactly when all three did; a duplicate is reported exactly for a stored id |
| AnalyticsService.Service.ExtendedStats | backend/analytics-service/internal/application/service.go:76-85 | Only owners and shelters get the report of the seven sums |
| AnalyticsService.IngestEffect | backend/analytics-service/internal/application/service.go:37-60 | What an uninterrupted ingest leaves behind in each failure case |
| BillingRuns.StepKeeps | backend/billing-service/internal/application/service.go:68-452 | Every billing call, with failing provider, commit and publication, keeps the invariant of ledger, donations, records, boosts and entitlements |
| BillingRuns.RunKeeps | backend/billing-service/internal/application/service.go:68-452 | The same over every run, and rows only evolve |
| BillingTheorems.DonationsOnlyMoveForward | backend/billing-service/internal/domain/donation.go:84-114 | Over any run a donation keeps payer, amount and target, and its status moves at most from pending to succeeded or failed |
| BillingTheorems.LedgerOnlyGrows | backend/billing-service/internal/infrastructure/postgres/store.go:261-269 | Ledger entries, records and entitlements are never changed or removed |
| BillingTheorems.EntriesAreBacked | backend/billing-service/internal/application/service.go:185-201 | Every donation entry matches a succeeded donation's payer and amount; every entitlement entry its entitlement's owner |
| BillingTheorems.SucceededIsBooked | backend/billing-service/internal/application/service.go:359-452 | Every succeeded donation is in the ledger, by its own entry or by that of the entitlement it paid for |
| BillingTheorems.EntriesMatchRecords | backend/billing-service/internal/infrastructure/postgres/store.go:112-119 | Donation entries and confirmation records are equal in number, in all and for each donation; likewise entitlement entries, purchase records and entitlements, with exactly one entry for each |
| BillingTheorems.BoostsArePaid | backend/billing-service/internal/domain/boost.go:33-56 | Every boost's donation has succeeded |
| BillingTheorems.OneDonationPerPayment | backend/billing-service/internal/infrastructure/postgres/store.go:142-155 | One payment of a provider makes at most one donation succeed |
| BillingTheorems.CancelIsFinal | backend/billing-service/internal/domain/boost.go:58-65 | A cancelled boost stays as it was cancelled first |
| BillingTheorems.ConfirmReplay | backend/billing-service/internal/application/service.go:155-160 | Whatever has happened since, a repeated confirmation changes nothing and answers with the same paid donation |
| BillingTheorems.ConfirmRecords | backend/billing-service/internal/application/service.go:185-225 | A confirmation answered with a donation has stored it as paid, added one entry with its payer and amount, and recorded its key |
| BillingTheorems.PurchaseRecords | backend/billing-service/internal/application/service.go:379-452 | A purchase answered with an entitlement has stored exactly that entitlement, its paid donation, one entry and one record |
| BillingTheorems.IntentReplayExactly | backend/billing-service/internal/application/service.go:74-84 | A repeated intent changes nothing and answers with the first call's donation exactly while the provider knows the payment |
| BillingTheorems.BoostReplay | backend/billing-service/internal/application/service.go:263-268 | A repeated boost changes nothing and answers with the first call's boost, whatever has become of it |
| BillingTheorems.PurchaseReplayExactly | backend/billing-service/internal/application/service.go:364-375 | A repeated purchase changes nothing and answers with its entitlement exactly while the caller owns it and it has not expired, and with not found otherwise |
| BillingOutcomes.IntendedExactly | backend/billing-service/internal/application/service.go:85-135 | Under an unused key an intent is answered if and only if it is valid, the provider names a payment that no other donation has, and the commit succeeds; it stores the pending donation asked for |
| BillingOutcomes.ConfirmedExactly | backend/billing-service/internal/application/service.go:162-225 | Under an unused key a confirmation is answered with a donation if and only if the donation is stored and can succeed, the provider accepted the payment, no other donation has it, and commit and publication succeed; it stores the paid donation, its entry and its key |
| BillingOutcomes.RefusedExactly | backend/billing-service/internal/application/service.go:227-244 | A refused payment marks a donation that can fail as failed with the reason and the time exactly when published and committed, and touches nothing else |
| BillingOutcomes.BoostedExactly | backend/billing-service/internal/application/service.go:269-320 | Under an unused key a boost is granted if and only if its animal is not archived, its donation has succeeded, it lasts at most 90 days of 24 hours, its fields are filled, and commit and publication succeed; archived animals and unpaid donations are refused as such |
| BillingOutcomes.ArchivedExactly | backend/billing-service/internal/application/service.go:269-275 | Over every run the archived animals are those archived before and those archived in it |
| BillingOutcomes.CancelledExactly | backend/billing-service/internal/domain/boost.go:58-65 | A cancellation is answered if and only if the boost is stored and the statement is answered; an active boost becomes inactive with that reason and time |
| BillingOutcomes.PurchasedExactly | backend/billing-service/internal/application/service.go:376-452 | Under an unused key a purchase is answered with its entitlement if and only if the input is valid, the provider gave an intent and confirmed it, the rows fit, and commit and publication succeed; the tables change only then, or when the commit's answer is lost |
| BillingOutcomes.RefusedPurchase | backend/billing-service/internal/application/service.go:470-485 | A purchase whose payment the provider does not confirm is an error and changes nothing |
| BillingOutcomes.PurchaseRepeated | backend/billing-service/internal/application/service.go:364-375 | A repeated purchase is answered if and only if its entitlement is the caller's, active and not expired |
| BillingOutcomes.IntentRepeated | backend/billing-service/internal/application/service.go:74-84 | A repeated intent is answered with the key's donation if and only if the provider knows the payment |
| BillingOutcomes.ConfirmAndBoostRepeated | backend/billing-service/internal/application/service.go:155-160 | A repeated confirmation or boost is answered with the key's donation or boost |
| BillingOutcomes.KeylessRefused | backend/billing-service/internal/application/service.go:68-73 | Without a key every call is refused as invalid and changes nothing |
| BillingOutcomes.EntitlementsWereConfirmed | backend/billing-service/internal/application/service.go:376-452 | Over every run, each new entitlement is the one asked for by a purchase whose payment the provider confirmed |
| BillingOutcomes.PaidWasAccepted | backend/billing-service/internal/application/service.go:162-201 | Over every run, each donation that has come to succeed had a payment accepted by the provider, in a confirmation of it or in its purchase |
| BillingOutcomes.IntentRefusal | backend/billing-service/internal/application/service.go:68-135 | The error of a refused intent, by its cause |
| BillingOutcomes.ConfirmRefusal | backend/billing-service/internal/application/service.go:150-225 | The error of a confirmation, by its cause |
| BillingOutcomes.BoostRefusal | backend/billing-service/internal/application/service.go:258-320 | The error of a refused boost, by its cause |
| BillingOutcomes.PurchaseRefusal | backend/billing-service/internal/application/service.go:359-485 | The error of a refused purchase, by its cause |
| BillingTheorems.RefusalAnsweredExactly | backend/billing-service/internal/application/service.go:162-183 | A confirmation answers without an error and without a donation if and only if its key is non-blank and unused, its donation stored, the payment refused, the donation failed already or pending with a non-blank reason given, and update, publication and commit succeed |
| BillingTheorems.RefusalRecordsNothing | backend/billing-service/internal/application/service.go:227-244 | Such a call leaves the donation failed and changes no entry, record, boost or entitlement |
| BillingTheorems.RefusalStaysUnrecorded | backend/billing-service/internal/application/service.go:155-201 | After it, over every run, the key stays unrecorded unless another confirmation with it is paid |
| BillingBooking.BookedExactlyWhenPaid | backend/billing-service/internal/application/service.go:185-201 | In every reachable state the donations with a ledger entry, their own or that of an entitlement they paid for, are exactly the succeeded ones |
| BillingBooking.StepBooksOnceExactly | backend/billing-service/internal/domain/donation.go:84-87 | From tables in which no donation is booked twice, own and entitlement entries together, a step books one twice if and only if it is a committed, accepted confirmation, under an unused key, of a donation that has succeeded already |
| BillingBooking.RunBooksOnceExactly | backend/billing-service/internal/application/service.go:150-225 | A run books no donation twice if and only if none of its steps is such a confirmation |
| BillingBooking.BookedOnceEach | backend/billing-service/internal/application/service.go:150-225 | From empty tables, without such a confirmation, every succeeded donation is booked exactly once and every other not at all |
| BillingBooking.PurchaseThenConfirmBooksTwice | backend/billing-service/internal/application/service.go:379-426 | The donation of any purchase can be confirmed once more under an unused key; it then has two entries |
| BillingBooking.PurchaseThenConfirmRun | backend/billing-service/internal/application/service.go:379-426 | Such a run from empty tables, of one purchase and one confirmation |
| BillingBooking.SecondKeyBooksTwice | backend/billing-service/internal/application/service.go:185-201 | Any pending donation confirmed under two unused keys by calls that commit has two entries |
| BillingRaces.CallIsItsSteps | backend/billing-service/internal/application/service.go:150-225 | The look-up of the key, the read of the donation and the rest, in a row, are the atomic confirmation of the other theorems |
| BillingRaces.EntriesRunAheadExactly | backend/billing-service/internal/infrastructure/postgres/store.go:112-119 | Over every interleaving of any number of confirmations with any other calls, donation entries outgrow confirmation records by exactly the bookings of calls whose key was recorded after their look-up and before their write |
| BillingRaces.RaceBooksEveryWrite | backend/billing-service/internal/application/service.go:155-201 | Any number of paying confirmations of one donation under one unused key, in any interleaving: each that gets to write adds an entry, and all together one record |
| BillingRaces.OpensExactlyBeforeFirstWrite | backend/billing-service/internal/application/service.go:155-160 | And a call gets to write exactly when it looked up the key before the first write; after that it changes nothing |
| BillingRaces.InterleavedConfirmsBookTwice | backend/billing-service/internal/application/service.go:155-201 | Any two paying confirmations of any payable donation with one unused key: both looked up before either commits, they add two entries and one record; the second looked up after the first, it is a replay and changes nothing |
| BillingOverwrites.ActEvolvesExactly | backend/billing-service/internal/infrastructure/postgres/store.go:142-155 | Over the steps of overlapping confirmations and any other calls, exactly these fail to let donations move forward: a write that commits although its row has meanwhile succeeded while its own payment is refused, failed while it is accepted, or succeeded with another payment |
| BillingOverwrites.DonationsEvolveExactly | backend/billing-service/internal/infrastructure/postgres/store.go:142-155 | Over every interleaving, donations keep identity and amount and move forward at every step, and so from start to end, if and only if no such write occurs |
| BillingOverwrites.OverwritesOnlyChanged | backend/billing-service/internal/application/service.go:162-192 | Such a write always finds another row than its call has read |
| BillingOverwrites.RefusalTakesPaymentBack | backend/billing-service/internal/application/service.go:162-192 | Any two confirmations that have read one pending donation, one accepted and committed and then the other refused: the donation ends as failed while the ledger keeps the entry of its payment |
| BillingDomain.NewDonation | backend/billing-service/internal/domain/donation.go:51-82 | A new donation is pending, with an id and a time, for the payer, target and amount asked for |
| BillingDomain.NewBoost | backend/billing-service/internal/domain/boost.go:33-56 | A boost needs a succeeded donation and lasts the duration asked for, at most 90 days |
| BillingDomain.NewEntitlement | backend/billing-service/internal/domain/entitlement.go:36-59 | An entitlement starts active and lasts the duration asked for |
| BillingService.DonationObject.MarkSucceeded | backend/billing-service/internal/domain/donation.go:84-98 | In place: pending to succeeded, nothing and no error when succeeded already, an error otherwise |
| BillingService.DonationObject.MarkFailed | backend/billing-service/internal/domain/donation.go:100-114 | In place: the same for failure |
| BillingService.BoostObject.Cancel | backend/billing-service/internal/domain/boost.go:58-65 | In place: only an active boost changes |
| BillingService.Store.EndTx | backend/billing-service/internal/infrastructure/postgres/store.go:51-70 | A transaction leaves its changes only when every statement and the commit apply; otherwise the tables before it |
| BillingService.Store.UpdateDonation | backend/billing-service/internal/infrastructure/postgres/store.go:142-155 | Four columns change, unless the row is missing or the payment belongs to another donation |
| BillingService.Service.CreateDonationIntent | backend/billing-service/internal/application/service.go:68-135 | Statement by statement the specification's tables and reply |
| BillingService.Service.ConfirmDonation | backend/billing-service/internal/application/service.go:150-225 | The same, with the failed branch that publishes inside its transaction |
| BillingService.Service.PersistFailedDonation | backend/billing-service/internal/application/service.go:227-244 | A failed publication undoes the update |
| BillingService.Service.CreateBoost | backend/billing-service/internal/application/service.go:258-320 | The same for a boost |
| BillingService.Service.CancelBoost | backend/billing-service/internal/application/service.go:331-341 | The same for a cancellation |
| BillingService.Service.PurchaseEntitlement | backend/billing-service/internal/application/service.go:359-452 | The same for a purchase; the replay searches the listing in a loop |
| BillingService.Service.ReplayPurchase | backend/billing-service/internal/application/service.go:364-375 | The search finds the entitlement exactly when the listing condition holds for it |
| RealtimeHub.StepKeeps | backend/chat-service/internal/infrastructure/realtime/hub.go:22-62 | Every publish step, subscription, cancel and receive keeps: registered exactly while open, no empty set, buffers within 32, own key only, each publish at most once, in order of publishes |
| RealtimeHub.RunKeeps | backend/chat-service/internal/infrastructure/realtime/hub.go:22-62 | The same over every run |
| RealtimeHubTheorems.SendsReachOpenChannels | backend/chat-service/internal/infrastructure/realtime/hub.go:29-37 | In every reachable state no enabled send hits a closed channel, and no key keeps an empty set |
| RealtimeHubTheorems.TargetsExactly | backend/chat-service/internal/infrastructure/realtime/hub.go:22-30 | In every reachable state a publish serves exactly the open channels subscribed to its partition key, or without one to the conversation its first part names |
| RealtimeHubTheorems.SentExactly | backend/chat-service/internal/infrastructure/realtime/hub.go:29-37 | A send appends the event to a channel with fewer than 32 waiting, and is a drop otherwise; no other channel changes |
| RealtimeHubTheorems.ReceivedExactly | backend/chat-service/internal/infrastructure/realtime/hub.go:43-50 | A receive takes the event that has waited longest and leaves the rest and every other channel alone |
| RealtimeHubTheorems.EndedIsEarlier | backend/chat-service/internal/infrastructure/realtime/hub.go:22-40 | Every publish that begins after another has ended, normally or not, over any run in between, counts it among the earlier ones that the order of channels respects |
| RealtimeHubTheorems.ChannelsCarryTheirKey | backend/chat-service/internal/infrastructure/realtime/hub.go:22-40 | Buffers stay within 32; a channel carries only events of its key, each publish at most once |
| RealtimeHubTheorems.SequentialPublishesInOrder | backend/chat-service/internal/infrastructure/realtime/hub.go:22-40 | Of two publishes one after the other, a channel that carries both carries them in that order |
| RealtimeHubTheorems.LossesAreDrops | backend/chat-service/internal/infrastructure/realtime/hub.go:29-37 | When a publish ends normally each subscriber it found has the event or was full at its turn |
| RealtimeHubTheorems.DropsNeedFullBuffers | backend/chat-service/internal/infrastructure/realtime/hub.go:29-37 | A drop is recorded only for a buffer of 32 |
| RealtimeHubTheorems.NothingAfterCancel | backend/chat-service/internal/infrastructure/realtime/hub.go:52-60 | After its cancel a channel gets nothing, over every run |
| RealtimeHubTheorems.NothingBeforeSubscribe | backend/chat-service/internal/infrastructure/realtime/hub.go:43-50 | A new channel gets nothing of a publish that began before it |
| RealtimeHubTheorems.HubObject.Publish | backend/chat-service/internal/infrastructure/realtime/hub.go:22-40 | The loop is a run of sends; when it finishes every subscriber has the event or was full |
| RealtimeHubTheorems.HubObject.Subscribe | backend/chat-service/internal/infrastructure/realtime/hub.go:43-50 | The registration step |
| RealtimeHubTheorems.HubObject.Cancel | backend/chat-service/internal/infrastructure/realtime/hub.go:52-60 | The removal step, with the key when it was the last |

## Left out

- MatchingRuns.StepKeeps: a transaction is one atomic step; isolation anomalies between serializable and plain statements are not modelled.
- BillingTheorems.EntriesMatchRecords: holds for calls that do not overlap; `BillingRaces.EntriesRunAheadExactly` counts what overlapping confirmations add.
- BillingTheorems.DonationsOnlyMoveForward: holds for calls that do not overlap, as do `EntriesAreBacked`, `BoostsArePaid` and `BillingBooking.BookedExactlyWhenPaid`; `BillingOverwrites` says what overlapping confirmations can undo.
- FeedPaging.FeedServesExactly: over an unchanged set of candidates; `FeedDrift` has the ranking change between requests.
- Publishers.RunKeeps: a write that Kafka did not acknowledge may have arrived; acknowledged ones are a lower bound of what consumers see.
- BillingRaces.RaceBooksEveryWrite: only confirmations are broken into steps; other calls come between these as wholes.
- BillingRuns.RunKeeps: ledger identifiers are taken to be fresh, because the insert ignores a conflict on them.
- RefreshTokens.RunKeeps: a rotation is one step whose repository calls may fail; `RotationRaces` has those that overlap.
- AnalyticsTheorems.QuietCountersAgree: does not model the microsecond rounding of stored times, which an event at the edge of a bucket could feel.
- AnalyticsService.Service.ExtendedStats: the click rate is a real number, not a rounded one.
- MatchingPaging.ListSwipes: the JSON text of a page token is not modelled; a token is empty, malformed, or the cursor in it.
- BillingPaging.CursorRoundTrip: the time layout is any text that reads back and has no separator; identifiers are ASCII.
- Keyset.CrawlIsComplete: identifiers are compared by character codes; a database collation is another total order of them.
- FeedRank.RankExactly: scores are reals, one total per candidate; the order in which floating-point parts are summed is not modelled, nor is the algorithm of the library sort, which its stability determines.
- TokenBucket.AdmitsExactly: tokens and time are reals, and the clock does not go back.
- FixedWindow.SpanBound: windows of whole positive seconds, as the names of the buckets have no finer unit.
- RealtimeHubTheorems.HubObject.Publish: the locks are modelled by which steps can interleave; goroutine scheduling is any order of sends.
- The text of SQL statements, migrations, and the drivers of PostgreSQL, Kafka, Redis, gRPC and HTTP.
- Kafka consumers and their commits: no delivery guarantee is decided there.
- The owner column of the availability table and the trace and correlation ids, which no decision reads.
- The chat client of the matching service, which nothing calls.
- `MetricsByBucket` and `RankingFeedback` of the analytics service: grouping of rows and a retry loop without a further property.
- `GetEntitlements`' filter by type, and payment retries around the breaker: they repeat a call without changing what one call does.
- Events that billing publishes: only whether the publication fails is modelled, not their content.
- The feed's stores beyond filter evaluation: the two implementations treat upserts and status changes differently.
- Overflow of 64-bit counters and of time arithmetic.
- Cancellation of a context other than at the hub's sends: elsewhere it is one of the failures of a call.
- Argon2id itself, and the drawing of salts, tokens and identifiers.
- Users, chats, notifications and gateway routing: records without a hard property.
