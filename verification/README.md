# Clearnode: broker ledger, application sessions, channels and authentication

A Dafny model of the state that a clearnode keeps and of everything that writes to it, with proofs
about whole runs. `dafny verify dfyconfig.toml` verifies the project.

## What is modelled

* **Tables** (`Tables.dfy`, `Ledger.dfy`). A `State` holds the ledger rows, the application sessions,
  the channels and the assets. Row types admit what the columns can hold: a channel amount is a
  BIGINT, a session weight an INTEGER. Inserting or saving anything else fails, as it does in the
  database. Ledger amounts count units of 10^-18.
* **Session requests** (`AppSessions.dfy`). What creating and closing a session decide and write, said
  without loops: verdicts as predicates over all rows and signatures, effects as lists of entries.
* **Chain events** (`Custody.dfy`). The Created, Joined, Resized and Closed branches.
* **Signed channel states** (`SignedStates.dfy`). The splits signed for a resize and a close.
* **What the verdicts mean** (`Verdicts.dfy`). Each answer of the two session handlers by the columns and
  indices of its inputs, without the maps and loops that find it.
* **The handlers themselves** (`Broker.dfy`). A `Database` object, the two session handlers and the
  event handler with their loops, maps, re-read balances and rollbacks, each proved equal to its
  loop-free statement. Maps are walked in an arbitrary order, so that order is proved irrelevant.
* **Runs** (`Runs.dfy`, `SessionRuns.dfy`). Any interleaving of requests and events from an empty database.
  `Node.dfy` carries such a run out on the `Database` object.
* **Authentication** (`Auth.dfy`, `AuthManagers.dfy`). The challenge and session maps as a state machine
  over the critical sections of the two locks, and the `AuthManager` object proved against it, call by
  call and over whole runs.
* **Counterexamples** (`Counterexamples.dfy`). Runs from the empty database on which an expected law fails
  in the code, each for any two participants (`EXAMPLE` is one such cast), each with the law that says
  exactly when it fails.

## Modelling decisions

* An account is named by one string, as in the ledger table: a participant's own name, or a session id.
  Participants of a session are arbitrary strings. What signatures recover and what contracts name are
  addresses of 42 characters, a session id is a printed hash of 66, so only a close can credit an account
  that is named like a session. The laws about session accounts hold over all strings and say when
  that happens. Session ids and recovered signers enter as parameters.
* Addresses are strings and lower-casing is modelled, on ASCII. The ledger compares spellings exactly
  while a close matches names in lower case. What a close does to totals is proved for every spelling.
* A database transaction is one step. In the Resized branch the channel is saved outside the
  transaction (custody.go:307, 320), and the model keeps that.
* Zero-valued columns with a default take it: protocol, quorum and version (app_session.go:13, 19, 20).
* `big.Int.Int64` keeps the low 64 bits, and int64 additions wrap.
* `WellOrdered` is the assumption about the chain: events of a channel come as Created, Joined,
  Resized any number of times, Closed, from one chain, each once, and a resize leaves an amount
  between 0 and 2^63. Laws that do not name it hold for every run.
* Authentication steps carry every clock reading they make. The cleaner and the challenge generator
  read the clock before they take a lock, so their readings may be arbitrarily old. Verifying a
  challenge holds the challenge lock throughout and takes the session lock inside it, so it is one
  step. Checking and refreshing a session when a message arrives is one step (`Gate`); a refresh
  on its own is a step too (`Touch`), and what it breaks is stated.

## Where code and documentation differ

* `docs/Clearnode.protocol.md:36` says that the allocated total is checked against the total funds of the
  application. The code checks only assets that some row names, and empties only the balance that each
  participant's own row names, under exactly the spelling of the row. `CloseDriftSplit` gives the resulting
  change of every total for every request, `CloseEvenIff` and `CloseConservesIff` say when it is zero,
  `CreateCloseConservesIff` says so from the create and the close request alone, and three runs show
  that it is not always.
* The same document (line 19) says that all participants of an application have channels with the broker;
  the code does not look.

## Model

| member | source | states |
|---|---|---|
| Ledger.BalanceOfHistory | ledger.go:36-70 | for any sequence of Record calls, the balance at a key is the sum of the signed amounts recorded at that key |
| Ledger.BalanceOfRecord | ledger.go:36-56 | one Record moves the balance at its own key by its amount and no other balance |
| Ledger.GetBalancesAgree | ledger.go:72-96 | one line for each asset present, none twice, each with the amount Balance reports, and together the sum of all entries |
| Ledger.RecordedColumns | ledger.go:36-56 | a positive amount is recorded as one credit, a negative one as a debit of as much, zero not at all |
| Ledger.GetEntriesExact | ledger.go:98-109 | the rows listed are exactly those at the account and participant, and of the asset if one is named, each as often as recorded |
| Ledger.GetEntriesAgree | ledger.go:98-109 | the entries listed for a named asset add up to its balance |
| AppSessions.BalanceAfterCreateRows | handlers.go:366-390 | the rows of a create take from each unified balance all that they ask of it together and add as much to the session balance, as long as no row moves funds of a participant spelled like the session |
| AppSessions.AuthorizedNoneForItself | handlers.go:345-377 | the rows of a create that passes the signature check never do: a moved amount belongs to a recovered address, which is shorter than a hash |
| AppSessions.CreateConserves | handlers.go:384-389 | creating a session changes the ledger total of no asset |
| AppSessions.CreateOrderIndependent | handlers.go:355-390 | verdict and balances of a create do not depend on the order of rows or signatures, although balances are re-read row by row |
| Verdicts.QuorumIff | handlers.go:477-505 | the signatures of a close are accepted exactly when all recover, to pairwise different addresses, each listed with a positive weight at its last place, and the weights at the last places of those who signed add up to the quorum; the int64 total cannot overflow with stored weights and fewer than 2^32 participants |
| Verdicts.QuorumDistinctIff | handlers.go:477-505 | for participants that are different addresses, exactly when each signer is listed with a positive weight and the weights[i] of those participants[i] who signed add up to the quorum |
| Verdicts.CreateVerdictExact | handlers.go:320-417 | every answer of a create by its first failing check: counts, signatures, rows that are negative, unsigned or not covered together, an id already stored or a number too wide for its column; acceptance exactly when none fails |
| Verdicts.CloseVerdictExact | handlers.go:450-563 | every answer of a close by its first failing check: missing parameters, incomplete rows, session not open, signatures, quorum, rows that name an unlisted address or one twice, their number, holdings not paid out; acceptance exactly when none fails |
| AppSessions.QuorumPermutation | handlers.go:482-505 | the verdict is the same for every order of the signatures |
| AppSessions.CloseBijection | handlers.go:477-480 | the per-row checks and the count together hold exactly when the participants are pairwise distinct and the rows list each once |
| AppSessions.AcceptedCloseIsBijection | handlers.go:519-552 | a close succeeds only with one row for each participant and no participant listed twice in the session |
| AppSessions.CloseSettles | handlers.go:532-544 | after an accepted close every session balance named by a row is zero and its unified balance has grown by the allocation; for a participant spelled like the session the two are one balance, which is left at the allocation |
| AppSessions.CloseDriftExact | handlers.go:507-563 | for every request and spelling, a close changes the total of each named asset by what the participants hold of it less what the rows take out, and of other assets not at all |
| AppSessions.CloseDriftIsStranded | handlers.go:507-563 | with stored spellings that change is exactly the balances held by participants whose row names another asset |
| AppSessions.CloseDriftSplit | handlers.go:507-563 | for every spelling, that change is what listed participants hold without a row of exactly their stored spelling naming the asset, less what rows naming it take under unlisted spellings |
| AppSessions.CloseEvenIff | handlers.go:507-563 | with no assumption at all, a close conserves an asset if and only if those two amounts are equal |
| AppSessions.CloseConservesIff | handlers.go:507-563 | for every spelling of the rows: if no listed participant has a negative balance and no row naming the asset finds a balance under an unlisted spelling, a named asset is conserved if and only if every listed participant without an exactly spelled row naming it holds none of it, and otherwise its total grows |
| AppSessions.CloseBurnsIff | handlers.go:507-563 | if no listed participant leaves any behind and no balance is negative, the total falls if and only if a row naming the asset finds a balance under an unlisted spelling |
| AppSessions.SingleAssetConservesIff | handlers.go:507-563 | under the assumptions of CloseConservesIff, a close whose rows all name one asset conserves it if and only if every listed participant who holds any is spelled exactly as stored by some row |
| AppSessions.SingleAssetConserves | handlers.go:507-563 | a close whose rows all name one asset and spell every participant as stored conserves every asset, whatever the balances |
| AppSessions.CloseOrderIndependent | handlers.go:450-563 | verdict, session table and every balance of a close are the same for every order of rows and signatures |
| Custody.ResizedAmountExact | custody.go:312-322 | the wrapping loop stores the true sum of old amount and deltas exactly when that sum lies in [0, 2^63), partial overflow or not |
| Custody.ResizeHalfAppliesIff | custody.go:299-335 | a Resized event saves the channel without the ledger following if and only if the channel is known, its new amount can be stored, the first delta is not zero and the token has no asset; otherwise either nothing changes or the channel gets amount and version and exactly the participant's balance moves by the first delta |
| Tables.ScaleExact | custody.go:223 | one raw unit is 10^18 ledger units divided by ten to the power of the token's decimals |
| Custody.CreatedStoredIff | custody.go:127-165 | a Created event is stored if and only if it names the broker second, its id is new, nonce and low 64 bits of the amount fit 63 bits, and no stored channel of that participant, token and chain is open |
| Custody.CreatedLeaves | custody.go:156-171 | what it then stores, field by field, and that it changes nothing else |
| Custody.JoinedLeaves | custody.go:195-234 | a Joined event opens a known channel of a registered token and credits its whole amount to its participant and to no other balance; otherwise it changes nothing |
| Custody.ClosedLeaves | custody.go:248-288 | a Closed event empties and closes such a channel, counts a version and debits its whole amount from its participant and from no other balance; otherwise it changes nothing |
| Custody.CreatedAmountExact | custody.go:136-165 | a new channel stores the event's amount exactly when it fits 63 bits |
| Custody.EventKeepsGap | custody.go:206-341 | an event in its turn moves ledger total less channel value by minus its deltas at index 1 and above, and not at all without such deltas |
| SignedStates.CloseMatchesSplit | handlers.go:847-875 | the signed shares are non-negative and sum to the channel amount; the matching Closed event leaves the participant at minus the broker's share plus less than one raw unit, at the signed version, with an empty channel |
| SignedStates.RawUnitsShift | handlers.go:729 | how truncation toward zero moves when whole raw units are added, across zero included |
| SignedStates.RawUnitsExact | handlers.go:729 | truncation cuts off less than one raw unit, toward zero on either side |
| SignedStates.ResizeSignedIff | handlers.go:705-753 | a resize is signed if and only if the channel is known, the signature is its participant's, the token has an asset, the truncated balance is at least amount plus allocation and amount plus both is not negative; it signs that amount for the participant, nothing for the broker, the next version and the intents minus resize and allocate |
| SignedStates.ResizeRefused | handlers.go:705-739 | a refused resize names the first check that fails |
| SignedStates.CloseSignedIff | handlers.go:828-875 | a close is signed if and only if the channel is known, the signature is its participant's, the token has an asset, the balance is not negative and its truncation not above the channel amount; it signs the truncation for the participant and the rest for the broker |
| SignedStates.CloseRefused | handlers.go:828-862 | a refused close names the first check that fails |
| SignedStates.MatchingEventCarriesOut | handlers.go:753 | the event whose deltas are the signed intents, the first with its sign turned, is the one asked for: the channel moves by both to the signed amount and version, the holder's balance by minus the first intent |
| SignedStates.ResizeStoresSigned | handlers.go:731-753 | the Resized event stores signed amount and version exactly when the amount is a BIGINT; the encoded intents explain the signed amount |
| SignedStates.ResizeKeepsCoverage | handlers.go:723-753 | after the matching event the truncated balance covers the channel if and only if the balance was not a negative fraction rounded up to exactly the allocated amount |
| Broker.HandleCreateApplication | handlers.go:302-428 | the handler with its loops decides and writes exactly what the loop-free verdict and rows say, and leaves the state alone when it rejects |
| Broker.MoveFunds | handlers.go:366-390 | checking each row against the balance left by the rows before it is checking every balance against all rows together |
| Broker.CountSignatures | handlers.go:482-502 | the loop over signatures accepts exactly recovered, pairwise different, weighted participants and leaves their wrapped total |
| Broker.GatherWeights | handlers.go:477-480 | participantWeights holds, of each listed address in lower case, the weight at its last place, and no other name |
| Broker.HandleGetAppDefinition | handlers.go:584-621 | the handler with its loop reads the stored columns back as a definition |
| Broker.SumHoldings | handlers.go:507-517 | appSessionBalance is the sum of the participants' balances in each named asset, in whatever order assets are visited |
| Broker.SettleRows | handlers.go:519-547 | the allocation loop, re-reading balances as it writes, appends the entries computed from the ledger before it, and rejects exactly unlisted or repeated names |
| Broker.CompareTotals | handlers.go:554-563 | the two closing loops accept exactly equal maps |
| Broker.HandleCloseApplication | handlers.go:431-581 | the handler decides and writes exactly what the loop-free verdict and rows say, and rolls back when it rejects |
| Broker.CustodyClient.HandleBlockChainEvent | custody.go:114-356 | each branch leaves exactly the state of the event's transition |
| Broker.CustodyClient.AddDeltas | custody.go:312-315 | int64 additions that wrap on the way give the wrapped true sum |
| Runs.LifeReflected | custody.go:206-281 | in every well-ordered run the status of a stored channel is that of its place in the event stream, and an unregistered token never leaves joining |
| Runs.ResizeHalfAppliesInRunIff | custody.go:299-335 | in a well-ordered run a Resized event half applies if and only if it moves funds of a stored channel whose token has no asset |
| Runs.StatusAdvances | channel.go:15-19 | a stored channel is never dropped, and a step leaves its status or takes it from joining to open or from open to closed |
| Runs.StatusNeverMovesBack | channel.go:15-19 | between any two points of a run the status never moves back, nor by more places than there are steps |
| Runs.ChannelOrigin | custody.go:127-170 | in every run, ordered or not, each channel comes from a Created event that named the broker, with unchanged terms, at a time when no stored channel of its participant for that token and chain was open |
| Runs.NextCreatedStoredIff | custody.go:143-154 | once a channel is closed, the next Created event of its participant for the token and chain is stored if and only if no other channel of the kind is open |
| Runs.Accounting | custody.go:206-341 | whole-run accounting: ledger total of each symbol is channel value, less all deltas at index 1 and above, plus the drift of closes |
| Runs.Solvency | custody.go:206-341 | if every accepted close of a well-ordered run is even in a symbol, leaving behind under stored spellings what it takes under others, the ledger total of the symbol is exactly channel value less those deltas |
| Runs.AlwaysSolventIff | custody.go:206-341 | a well-ordered run balances in a symbol at every point if and only if every close of it is even in the symbol |
| Runs.PlainClosesAreEven | handlers.go:507-563 | closes that name a single asset and spell participants as stored are even in every asset |
| Runs.ChannelTelescopes | custody.go:206-341 | the rows written for one channel sum to its present worth less its deltas at index 1 and above |
| Runs.VersionCounts | custody.go:276-322 | the version counts the Resized and Closed events |
| Runs.ClosedChannelSettled | custody.go:268-281 | a closed channel is empty and its rows sum to minus its deltas at index 1 and above |
| SessionRuns.SessionFrame | handlers.go:384-412 | only an accepted create or close of a session touches its record and the rows of its participants; its account as a string gets further rows if and only if an accepted close pays a participant spelled like its id |
| SessionRuns.AccountFrozenIff | handlers.go:384-545 | over a run that neither creates nor closes the session, the rows of its participants stay, and the whole account stays if and only if no such payment is made |
| SessionRuns.NoRowsWithoutSession | handlers.go:387-412 | in every reachable state without the session its account has no rows of participants, and no rows at all if and only if nobody spelled like its id was paid |
| SessionRuns.OpenSessionHolds | handlers.go:384-412 | while a session is open its participants' rows are exactly its create rows, each balance the sum they allocated, its record the one created; a participant spelled like the session is apart |
| SessionRuns.ClosedForever | handlers.go:472-474 | a closed session and its participants' rows never change again, and its whole account if and only if nobody spelled like its id is paid |
| SessionRuns.ClosedSessionEmpty | handlers.go:533-567 | after a close each named session balance is zero and stays zero through every later run, but for a participant spelled like the session |
| SessionRuns.RecordHoldsRequest | handlers.go:393-413 | at every point after an accepted create, open or closed, the stored record holds what was asked for, field by field, with the defaults for an empty protocol and a zero quorum, nonce or timestamp |
| SessionRuns.DefinitionReadBack | handlers.go:602-617 | and reading the definition back gives the definition of the request, each weight included, with the same defaults |
| SessionRuns.RecordKept | handlers.go:565-567 | whatever runs, a stored session keeps every column but its status, which can only become closed |
| SessionRuns.CloseNeedsQuorum | handlers.go:477-505 | from creation through any run, an accepted close carries signatures of pairwise different addresses, each listed with a positive weight in the original definition, and the weights[i] it gives to those participants[i] who signed add up to its quorum |
| SessionRuns.RoundTrip | handlers.go:366-563 | a session created and closed with the same rows leaves nothing at any account, participant and asset, whatever ran between; at the key of a participant spelled like the session it sweeps what others had paid there |
| SessionRuns.OwnRowsAccepted | handlers.go:507-563 | an open session that does not list its own id and has one complete row for each participant, spelled as listed, can always be closed with its own rows by a quorum |
| SessionRuns.NonNegativeStep | handlers.go:366-390 | a step keeps all balances at or above zero if and only if the unified balance that a chain event debits covers the debit |
| SessionRuns.NonNegativeRun | custody.go:268-341 | a run never goes below zero if and only if each of its steps is covered |
| SessionRuns.NothingGoesNegative | handlers.go:366-544 | creates, closes, Created, Joined and Resized without withdrawal never take any balance below zero |
| SessionRuns.SessionFundsNonNegative | handlers.go:366-544 | in every run, Closed events and withdrawals included, no balance is negative except in the unified account of an address |
| SessionRuns.ReachableCloseConservesIff | handlers.go:507-563 | in every reachable state, CloseConservesIff without its assumption about negative balances |
| SessionRuns.ReachableCloseBurnsIff | handlers.go:507-563 | in every reachable state, CloseBurnsIff without its assumption about negative balances |
| SessionRuns.CreateCloseConservesIff | handlers.go:366-563 | from the create and the close request alone, whatever ran between: the close conserves a named asset if and only if what the create allocated to listed participants whom no exactly spelled row names equals what it allocated under the unlisted spellings of the rows, for a definition that does not list its own hash |
| SessionRuns.ListedCloseConservesIff | handlers.go:366-563 | if the create spelled its allocations as listed: if and only if each participant who got any of the asset has a row naming it, spelled as listed |
| SessionRuns.NothingMovesUnasked | handlers.go:370-384 | a unified balance falls only by its owner's signature or its owner's channel, a session balance only by an accepted close that names it |
| Auth.CleanupUnobservable | auth.go:165-187 | in every run whose separate refreshes come within the time limit of the last recorded activity, with sweeps anywhere and stale clock readings, challenges, sessions, messages and such refreshes are accepted exactly as by a manager that never sweeps |
| Auth.TouchUnobservableIff | ws.go:178-186 | after such a run, no placement of a sweep just before a refresh can be told from none if and only if its clock reading is at most the last recorded activity of its address plus sessionTTL |
| Auth.SplitGateObservable | ws.go:178-186 | with check and refresh as separate sections a sweep between them is observable, on a concrete run |
| Auth.ChallengeGrantedIff | auth.go:50-123 | a challenge is granted exactly when it was issued to the normalized address, its time is not over and it was never granted before |
| Auth.IssuedIff | auth.go:50-78 | a challenge is issued if and only if fewer than maxChallenges are stored, and is then stored beside the others, prefixed and unused, to expire challengeTTL after its creation |
| Auth.VerifyRemovesIff | auth.go:88-113 | verifying takes a challenge away exactly when token and address are its own and it is over or used up, and changes one only by granting it |
| Auth.ReplayAnswered | auth.go:100-116 | a granted challenge is answered as used for thirty seconds and as expired later |
| Auth.SameAddressIff | auth.go:52-54 | two spellings normalize to the same address exactly when they are equal or differ by a leading 0x |
| Auth.ActivityStored | auth.go:126-162 | a check or message is accepted exactly up to sessionTTL after the last activity; each step stores its own clock reading for its own address and leaves the others |
| Auth.SweptChallengesExact | auth.go:170-176 | a sweep keeps exactly the challenges not past their expiry |
| Auth.SweptSessionsExact | auth.go:178-185 | and exactly the sessions whose last activity plus sessionTTL is not past |
| Auth.ChallengesBounded | auth.go:70-76 | the map of challenges never exceeds its limit |
| Auth.SessionValidIff | auth.go:119-162 | a session is valid exactly when from a granted challenge of the address a chain of messages and refreshes leads to now with no gap above sessionTTL; that they were admitted is a consequence |
| AuthManagers.AuthManager.GenerateChallenge | auth.go:50-78 | refines the generate step |
| AuthManagers.AuthManager.ValidateChallenge | auth.go:81-130 | refines the verify step, with the answer of every branch |
| AuthManagers.AuthManager.ValidateSession | auth.go:133-148 | true exactly for a known address whose last activity is not older than the limit |
| AuthManagers.AuthManager.UpdateSession | auth.go:151-162 | refines the refresh step |
| AuthManagers.AuthManager.CleanupChallenges | auth.go:165-176 | deleting in place during an unordered walk removes exactly the expired challenges |
| AuthManagers.AuthManager.CleanupSessions | auth.go:178-186 | the same for lapsed sessions |
| AuthManagers.AdmitMessage | ws.go:178-186 | check, then refresh: the gate step |
| AuthManagers.ServeAll | auth.go:50-187 | the object, driven through any sequence of calls, sweeps and messages, gives every answer and the final state of the run |
| AuthManagers.Replay | auth.go:33-48 | the same for the object as the server makes it, which never holds more than a thousand challenges, keeps an unused one for 300 seconds and a session valid for 86400 seconds after its last activity |
| Node.HandleAll | handlers.go:302-581 | the database object, driven by the handlers through any sequence of requests and events, ends in the state of the run |
| Node.Replay | custody.go:114-356 | so the tables of a node started empty satisfy the accounting law after every well-ordered run |
| Counterexamples.MultiAssetCloseDoesNotConserve | handlers.go:507-563 | a well-ordered run from the empty database, deposit, join, create, close with rows in two assets: five units become ten and the books no longer balance |
| Counterexamples.RespelledCloseDoesNotConserve | handlers.go:523-544 | the same with one asset and one participant respelled in the close |
| Counterexamples.RespelledCloseBurns | handlers.go:523-544 | listed in lower case, funded and closed in the printed spelling: five units become none |
| Counterexamples.AccountPaidBeforeItsSession | handlers.go:543 | a run that leaves rows in the account of a session that does not exist, paid to a participant spelled like its id |
| Counterexamples.ClosingGoesNegative | custody.go:268-271 | deposit, join, create, Closed: the channel of a participant whose deposit is in a session closes and leaves the unified balance at minus five |
| Counterexamples.UnregisteredResizeHalfApplies | custody.go:307-333 | a run in which a resize without a registered asset moves the channel and not the ledger |
| Counterexamples.RoundedIntoCoverHappens | handlers.go:729-734 | a run that reaches the rounding case of ResizeKeepsCoverage, in which a resize is then signed and loses coverage |

## Left out

- HandleCloseApplication: one reason stands for several messages about a bad signature, and one for the two messages about a bad row, because which of them comes first depends on the order of the rows.
- HandleCreateApplication: one reason stands for a negative amount, a missing signature and insufficient funds; amounts are whole units of 10^-18, so the rounding of finer ones by the column is not modelled.
- BalanceOfHistory: the width of the ledger columns is not modelled; amounts are unbounded.
- VersionCounts: the version counter is unbounded, not a 64-bit word.
- ResizeStoresSigned: the source dereferences a missing channel and a missing first signature; the model refuses both requests.
- AddDeltas: a Resized event without deltas, on which the source panics, is not an event of the model.
- CreateCloseConservesIff: a definition that lists its own hash as a participant is excluded, because others may then have paid into the balance it names.
- OwnRowsAccepted: the same definitions are excluded.
- Assets with more than 18 decimals, whose raw units are finer than the ledger.
- Lower-casing outside ASCII.
- Uniqueness of open channels: the check at Created sees open channels only, so two joining ones can both become open.
- JSON, request parsing and validation tags; ECDSA, Keccak and ABI encoding; the Ethereum client, joining and event subscription.
- SQL dialects, isolation levels and connection failures: transactions are serial and only fail as written.
- WebSocket forwarding, metrics, logging, RPC history, read-only listings, configuration and charts: they write none of the modelled state.
