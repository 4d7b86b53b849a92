# Multi-device service: a verified model

The service keeps three things consistent while the world around them moves:

- a **block parser** follows a chain that may reorganise. It remembers the last
  20 blocks it stored, steps back when the next block's parent is not the block
  it stored, and resumes from the highest stored row after a restart;
- a table of **pending transactions** is written by three parties: the handler
  that sends a transaction, the block parser that sees it on the chain, and a
  sweep that gives up on transactions the node no longer knows;
- a **key-list cell** on the chain holds the devices of a user. Anyone may build
  an update from the list at some outpoint; it is cached, signed, sent and
  committed later, in competition with others.

Beside these there are three smaller pieces: the signalling hub that lets
browsers find each other, the expiring lock around the creation of a key-list
cell, and the printer of durations.

Each of them is modelled as the Go code works. Objects with fields are classes
whose methods change them step by step (`BlockParser`, `DbDao`, `TxTimer`,
`HttpHandle`, `Hub`, `RedisCache`), loops are loops, and each method is proved
equal to a specification function (`SubStep`, `BatchStep`, `InitCursor`,
`Apply`, `Sweep`, `Update`, `BuildTx`, `Listing`, `Broadcast`, `Reply`, `Left`,
`Text`). The theorems are about all runs of these functions.

## Main results

**Block parser.** Runs are arbitrary sequences of sub-mode rounds (which may
fail at any call), batches that meet one chain on which the row below the cursor
lies, restarts, new pending rows, and reorganisations that replace only numbers
from `high` - 20 on, where `high` is the highest cursor reached.

- No canonical block is skipped (`NoBlockSkipped`), and for this the two
  hypotheses are exact: the start number must be at least 19
  (`StartBoundIsExact`) and the depth of reorganisations at most 20
  (`ReorgDepthIsExact`), both as equivalences over all runs.
- The stored window is exactly the last 20 numbers if no prune fails
  (`WindowIsExact`), and exactly then in all runs (`PrunesAreNeededForWindow`).
- The rows link up (`RowsAreLinked`) and recorded block numbers agree with the
  canonical chain (`ConfirmationsAgree`) in every steady run: a restart may
  interrupt a rollback as long as no block below `high` has been handled again
  since the cursor was last at `high`. Other restarts can break both. In terms
  of how far below `high` restarts find the cursor, both properties hold in all
  runs if and only if that distance is 0 (`RestartLagIsExactForRows`,
  `RestartLagIsExactForNumbers`).
- As soon as the chain stays fixed, whatever has failed before, the parser rolls
  back r times, never below its start number and never again, and reaches its
  target after exactly 2r + target - cursor rounds (`Converges`). r is at most 20
  in all runs if and only if restarts find no rollback in progress or prunes do
  not fail (`RollbackBoundIsExact`).
- A batch, on whatever chains its fetches meet, does what sub-mode rounds on the
  same chains do, if and only if the row below the cursor is on the first chain
  and every further chain keeps the block fetched before (`BatchRefinesSub`);
  and exactly then its rows link up (`BatchLinksExactly`). A reorganisation
  before or inside a batch goes unseen for ever (`StaleStartGoesUnseen`,
  `MidBatchReorgGoesUnseen`).
- Failed rounds and replays are harmless, with any statements of the sender and
  the sweep in between (`ReplayIsHarmless`).

- What each call of a round does, and what is left when it fails, is stated
  without the model's own functions (`RoundByCall`, `ErrorStopsBlock`); with a
  configured start, all canonical blocks above it are handled
  (`HandledFromConfigOn`).

**Pending rows.** Every interleaving moves a row only up along
Pending < Rejected < Confirm (`StatusOnlyMovesUp`, `SweepMovesUp`). A sweep
rejects only rows it asked about if at most 100 rows match its search
(`SweepIsSound`), and exactly then (`LimitIsExact`). It confirms every listed row
whose transaction is committed (`CommittedIsConfirmed`) and rejects exactly when
all listed ones are gone (`RejectsExactlyWhenAllGone`).

**Key list.** Updates are linearizable and none is lost
(`UpdatesAreLinearizable`, `NoOutpointConsumedTwice`, `StaleNeverCommits`,
`AddedKeyStays`), each was valid at its turn (`CommittedRequestsValid`), and the
index appended to a signature is the signer's only position in the list that the
transaction consumes (`IndexAtCommit`).

**Smaller pieces.** Two live connections that have had their replies have each
been told of the other since the later of them joined (`MutualDiscovery`), and a
relayed message is written exactly once (`ForwardReachesExactly`). The lock
excludes in all runs in which it is held for less than d, if and only if d is at
most four minutes (`HoldTimeIsExact`). A printed duration determines the
seconds exactly from 0 to 9223372036 (`RoundTrip`).

## What the code does that its comments and tests do not say

- `DeleteBlockInfo(CurrentBlockNumber-20)` subtracts in 64 bits. While the
  cursor is below 20 the bound wraps and every row is deleted
  (`LowStartSkips`); the window theorems therefore start at number 19.
- The mode guards subtract in 64 bits as well. `ConfirmationDepth` says exactly
  for which tips every requested block is deep enough.
- The message for a full list speaks of ten backup devices; the code counts the
  master's key too, so that the list holds ten keys in all, and it lets the
  master's key be deleted (`ListStaysOk`).
- The search of the sweep is limited to 100 rows, the rejecting update is not
  (`LimitIsExact`).
- When the selected cells match the need exactly, the key-list cell itself pays
  for the size of the creating transaction and falls below its floor unless it
  is large enough (`CreateKeyListCfgCell`).
- A second join by one connection leaves an entry behind, and two connections
  with one cid cut each other off (`RejoinLeavesEntry`, `SharedCidCutsOff`).
- The lock's release deletes whatever lock is there
  (`OverrunFreesAnothersLock`).

## Assumptions

- A block hash determines the block and all its ancestors, and a transaction
  hash its input, new list and capacity; different blocks have different hashes.
  Chains have at most 2^63 blocks.
- The node answers the two fields of one block consistently. The chain may change
  between any two requests.
- Each SQL statement, Redis command and locked section is one atomic step. In
  runs of the parser (`ParserRuns`) a whole round is atomic towards the sender:
  new rows appear between rounds, and between attempts in `ReplayIsHarmless`.
  Faults of calls are parameters: any call of a round may be the one that fails.
- CKB consumes a live cell once, and the capacity of a cell's output does not
  exceed its input (Nervos CKB RFC 0022, section "Value Storage"). A chain
  includes a transaction in at most one block (only `ConfirmationsAgree`).
- Handled blocks with key-list transactions, and blocks returned for committed
  transactions, have numbers above 0. Rows sent during a sweep carry a time not
  before the sweep's bound, which lies six minutes back.
- Of das-lib only contracts are used: the selection of cells returns at least
  what is needed, the split of the change loses nothing, the index of a key is
  the position of the first entry with its cid and public key, and it is
  appended to the signature.
- Writes to a websocket succeed.
- `Hours`, `Minutes` and `Seconds` of a duration are computed over the reals;
  up to the bound of `RoundTrip` a duration holds whole seconds.

## Model

| member | source | states |
|---|---|---|
| Dao.DbDao.FindBlockInfo | dao/t_block_parser_info.go:8-12 | nothing is found exactly in an empty table; otherwise the row with the greatest number |
| Dao.DbDao.CreateBlockInfo | dao/t_block_parser_info.go:20-29 | inserts the row or overwrites the hashes of the row with that number, and touches no other row |
| Dao.DbDao.DeleteBlockInfo | dao/t_block_parser_info.go:31-34 | exactly the rows with numbers at or above the bound stay |
| Dao.DbDao.CreatePending | dao/t_webauthn_pending_info.go:8-10 | adds the row exactly when its id and its (action, outpoint) are free |
| Dao.DbDao.UpdatePendingToConfirm | dao/t_webauthn_pending_info.go:17-23 | confirms the row with the id and no other |
| Dao.DbDao.UpdatePendingToRejected | dao/t_webauthn_pending_info.go:25-31 | rejects exactly the pending rows without block number that are older than the bound |
| Dao.DbDao.SearchMaybeRejectedPending | dao/t_webauthn_pending_info.go:43-46 | at most 100 distinct matching rows, and all of them when it returns fewer |
| Dao.DbDao.UpdatePendingStatusToConfirm | dao/t_webauthn_pending_info.go:48-56 | confirms exactly the row with the action and outpoint, whatever its status |
| Dao.DbDao.UpdateAvatarNotesToConfirm | dao/t_avatar_notes.go:27-35 | confirms exactly the notes of the outpoint |
| Dao.NotesByColumn | dao/t_avatar_notes.go:27-35 | the same for the notes |
| Dao.DbDao.GetTxStatusByOutpoint | dao/t_webauthn_pending_info.go:38-41 | the first row of output 0 of the transaction, or none |
| PendingTable.StatusOnlyMovesUp | dao/t_webauthn_pending_info.go:8-56 | under every interleaving of the writers' statements a row moves only along Pending < Rejected < Confirm, keeps its identity, and has a block number exactly when confirmed |
| PendingTable.StatementByColumn | dao/t_webauthn_pending_info.go:8-56 | which rows each statement touches and what it sets in them, column by column |
| PendingTable.OnlySweepsReject | dao/t_webauthn_pending_info.go:25-31 | a row is rejected only by a rejecting statement of the run that found it pending and too old |
| BlockParser.ConfirmationDepth | block_parser/block_parser.go:55-61 | every block requested in either mode is more than ConfirmNum below the tip, for all cursors, if and only if the subtractions of the guards in use do not wrap |
| BlockParser.GuardsFollowDepth | block_parser/block_parser.go:55-70 | with a tip of at least ConfirmNum + ConcurrencyNum the parser idles exactly while the block at its cursor is not deep enough, asks for it otherwise, and batches exactly when all blocks of the batch are deep enough |
| BlockParser.BlockParser.InitCurrentBlockNumber | block_parser/block_parser.go:36-44 | with stored rows the cursor becomes the highest number plus one; without, a configured number plus one whatever the tip, or the tip plus one if none is configured |
| BlockParser.StartCursor | block_parser/block_parser.go:82-91 | the same of the specification of a start, and 1 when there is neither a configured number nor a tip |
| BlockParser.BlockParser.CheckFork | block_parser/block_parser.go:123-135 | reports a fork exactly when the row below the cursor exists and differs from the parent |
| BlockParser.BlockParser.ActionUpdateKeylist | block_parser/action_update_keylist.go:8-25 | confirms the pending row and the notes of output 0, and what an error at each call leaves done |
| BlockParser.BlockParser.ParsingBlockData | block_parser/block_parser.go:164-196 | the tables after a whole block, or after its transactions up to the first error; the count of errors |
| BlockParser.BlockParser.ParserSubMode | block_parser/block_parser.go:93-121 | cursor, rows and tables after one round for every chain and every failing call, and when it reports success |
| BlockParser.BlockParser.ParserConcurrencyMode | block_parser/block_parser.go:137-162 | the same for a batch, where the chain may change between fetches; requests only the numbers of the batch |
| BlockParser.BlockParser.Round | block_parser/block_parser.go:50-71 | one iteration of the loop does what its mode does; with a tip of at least ConfirmNum + ConcurrencyNum every block it requests is more than ConfirmNum deep, and the block at the cursor is requested if it is |
| Handling.HandleUpToRows | block_parser/block_parser.go:164-196 | handling a block confirms exactly the rows and notes that its key-list updates of the current version are for, with its number and time |
| Handling.ParseBlockRows | block_parser/action_update_keylist.go:8-25 | an interrupted handling leaves every row untouched or as the whole block leaves it |
| Handling.HandleAllOverwrites | block_parser/block_parser.go:107-109 | tables that differ only in rows that wait for the block become equal when it is handled completely |
| Handling.ReplayIsHarmless | block_parser/block_parser.go:95-114 | any number of rounds that fail before the row is written, between any statements of the other writers, then a successful one, leave the state of those statements and a single successful round |
| Rounds.ErrorStopsBlock | block_parser/action_update_keylist.go:8-25 | an error in the handler of a transaction leaves all later transactions out, and of that transaction confirms the pending rows only if its notes update is what failed |
| Rounds.OtherFaultsDoNotStop | block_parser/action_update_keylist.go:9-14 | a transaction without handler or of another version makes no call that could fail |
| Rounds.RoundByCall | block_parser/block_parser.go:93-121 | cursor, rows and tables after a round, for each call that may fail, in terms of the block and the stored rows |
| Rounds.SentRowIsConfirmed | block_parser/action_update_keylist.go:15-19 | the row the sender inserts for a hash is confirmed exactly by blocks with a key-list update of that hash |
| Rounds.SentRowIsFound | dao/t_webauthn_pending_info.go:38-41 | a status query by transaction hash finds the row the sender inserted for it |
| ParserRuns.ParentHandled | block_parser/block_parser.go:123-135 | a block that passes the fork check has a handled parent, though its row may be pruned |
| ParserRuns.SafeAfterRound | block_parser/block_parser.go:93-121 | every round, failing anywhere, keeps handled blocks closed under parents, rows backed by handled blocks, and the last 20 numbers stored |
| ParserRuns.SafeAfterReorg | block_parser/block_parser.go:102-106 | a reorganisation of at most 20 blocks keeps this |
| ParserRuns.RestartFindsHigh | block_parser/block_parser.go:82-91 | a restart, also in the middle of a rollback, sets the cursor to the highest cursor reached |
| ParserRuns.BatchIsRounds | block_parser/block_parser.go:137-162 | a batch on one chain on which the row below the cursor lies is a sequence of sub-mode rounds without prunes, up to its first failure, and then its prune |
| ParserRuns.SafeAfterBatch | block_parser/block_parser.go:137-162 | such a batch, failing anywhere, keeps what rounds keep |
| ParserRuns.NoBlockSkipped | block_parser/block_parser.go:82-162 | in every run, all ancestors of every handled block from the start number on have been handled |
| ParserRuns.CanonicalBlocksHandled | block_parser/block_parser.go:93-135 | when the row below the cursor is canonical, all canonical blocks from the start to the cursor have been handled |
| ParserRuns.HandledFromConfigOn | block_parser/block_parser.go:41-44 | in every run with a configured number of at least 18: when the row below the cursor is canonical, all canonical blocks above the configured number and below the cursor have been handled |
| Linkage.WindowIsExact | block_parser/block_parser.go:110-117 | if no prune fails, stored numbers are exactly max(start, high-20) up to high-1, the cursor lies in that window or just above it, and a restart puts it at high |
| Linkage.NoLagIsSteady | block_parser/block_parser.go:82-91 | runs whose restarts find no rollback in progress are steady |
| Linkage.SteadyLinkedAfterStep | block_parser/block_parser.go:82-162 | each step of a steady run keeps the rows below the cursor on one chain that agrees with the node's below the window, and those up to high until one of them is handled again |
| Linkage.RowsAreLinked | block_parser/block_parser.go:82-162 | in every steady run, each row below the cursor has the row under it as its parent |
| Confirmations.HandlingKeepsLower | block_parser/action_update_keylist.go:15-19 | handling a block leaves the confirmations of lower blocks alone |
| Confirmations.ConfirmationsAgree | block_parser/block_parser.go:82-162 | in every steady run, when the row below the cursor is canonical, every row seen by a handling and expected in canonical block n is confirmed with number and time of block n, whatever orphaned blocks had said |
| Convergence.Converges | block_parser/block_parser.go:93-135 | after every run, on a fixed chain: r rollbacks, not below the start, then one handled canonical block a round and no rollback again, at the target after exactly 2r + target - cursor rounds; r <= 20 if the run is steady or no prune failed |
| Reachability.SettleReaches | block_parser/block_parser.go:61-66 | the rounds of convergence continue every run, so that all other theorems apply to them |
| BatchRefinement.BatchFills | block_parser/block_parser.go:137-162 | a batch on a fixed chain writes the canonical rows and handles the blocks in order |
| BatchRefinement.SubRoundsFill | block_parser/block_parser.go:93-121 | the rows, cursor and tables after n rounds in sub mode on a chain that matches, wrapped prunes included |
| BatchRefinement.BatchOnOneChain | block_parser/block_parser.go:158 | on one chain the batch's single prune leaves the rows of sub mode if and only if no prune with a wrapped bound makes a difference; cursor and tables always agree |
| BatchRefinement.BatchLinksExactly | block_parser/block_parser.go:139-157 | after a successful batch on any chains, the rows it wrote link if and only if the row below the cursor is on the first chain and every further chain keeps the block fetched before; row by row also after the prune |
| BatchRefinement.BatchRefinesSub | block_parser/block_parser.go:137-162 | from number 19 on, a successful batch on any chains leaves the cursor, rows and tables of sub-mode rounds on the same chains, under the same if and only if |
| Necessity.StartBoundIsExact | block_parser/block_parser.go:115 | ancestors are handled in all runs of an epoch if and only if it starts at 19 or above |
| Necessity.ReorgDepthIsExact | block_parser/block_parser.go:115 | ancestors are handled in all runs if and only if reorganisations reach at most 20 below the highest cursor |
| Necessity.DeepReorgSkips | block_parser/block_parser.go:124-130 | a run with a reorganisation of 21 blocks that handles a block without its parent |
| Necessity.MidBatchReorgGoesUnseen | block_parser/block_parser.go:139-157 | a reorganisation inside a batch stores rows that do not link and loses a canonical block; no later round on that chain repairs it |
| Necessity.MidBatchFromStart | block_parser/block_parser.go:139-157 | such a run from every fresh start, with a shallow reorganisation |
| Necessity.StaleStartGoesUnseen | block_parser/block_parser.go:137-157 | a batch above a row that is off the chain stores a row that does not link to it, and no later round rolls back, where sub mode would have |
| Necessity.StaleStartFromStart | block_parser/block_parser.go:137-157 | one shallow reorganisation leads from every fresh start to such a batch |
| Restarts.RestartMixesChains | block_parser/block_parser.go:82-91 | from every fresh start, a run with one restart one below high leaves rows of two chains and a canonical transaction recorded with an orphaned block's number |
| Restarts.RestartLagIsExactForRows | block_parser/block_parser.go:82-91 | rows below the cursor link in all runs of an epoch if and only if no restart finds the cursor below high |
| Restarts.RestartLagIsExactForNumbers | block_parser/block_parser.go:82-91 | recorded numbers agree with the canonical chain in all runs of an epoch if and only if no restart finds the cursor below high |
| FailedPrunes.PrunesAreNeededForWindow | block_parser/block_parser.go:115-117 | the stored numbers are exactly the window in all runs of an epoch if and only if prunes may not fail |
| FailedPrunes.RestartAndFailedPrune | block_parser/block_parser.go:115-117 | from every fresh start, a run with a restart during a rollback and one failed prune after which 21 rollbacks are due |
| FailedPrunes.RollbackBoundIsExact | block_parser/block_parser.go:93-135 | at most 20 rollbacks are due in all runs of an epoch if and only if no restart finds the cursor below high or prunes may not fail |
| Rejected.TxTimer.CheckRejected | timer/rejected.go:12-47 | what a round of the sweep does to the table for all answers of the node, all statements of others in between, and all errors |
| Rejected.SweepIsSound | timer/rejected.go:16-45 | a round with an error or another answer rejects nothing; with at most 100 matches every row it rejects was asked about and found gone |
| Rejected.LimitIsExact | timer/rejected.go:41-45 | a round can reject only rows it asked about, for all answers and interleavings, if and only if at most 100 rows match |
| Rejected.SweepMovesUp | timer/rejected.go:25-45 | a whole round on a list that may be stale moves statuses only up |
| Rejected.CommittedIsConfirmed | timer/rejected.go:34-39 | a listed row whose transaction is committed in a known block is confirmed at the end of the round, with that block's number and time unless another writer confirms it later, whatever else fails |
| Rejected.RejectsExactlyWhenAllGone | timer/rejected.go:41-45 | rows are rejected exactly when some were listed and all of those are gone, and then exactly those that still match |
| Rejected.FailedQueryEndsRound | timer/rejected.go:26-29 | the first failing query ends the round: no later row is asked about and nothing is rejected |
| Rejected.RowAfterRound | timer/rejected.go:25-45 | what becomes of every row that the other writers leave alone: confirmed, rejected or unchanged, and when |
| KeyList.UpdateKeyList | http_server/handle/authorize.go:198-227 | an add succeeds exactly with at most nine keys and the key absent, a delete exactly with the key present; the new list, and which error otherwise |
| KeyList.RequestOutcome | http_server/handle/authorize.go:203-227 | the same of the specification that the ledger uses |
| KeyList.DeleteKeepsOthers | http_server/handle/authorize.go:215-223 | a delete drops the keys with the cid and public key, and keeps all others in order, for every list |
| KeyList.WithoutPosition | http_server/handle/authorize.go:215-223 | deleting takes out exactly the key's position and keeps the others in order |
| KeyList.UpdateKeepsListOk | http_server/handle/authorize.go:203-227 | a request keeps at most ten keys without duplicates; afterwards the key is in the list exactly if it was an add |
| KeyList.ListStaysOk | http_server/handle/authorize.go:203-227 | every sequence of requests keeps zero to ten distinct keys |
| KeyList.UpdateAndInverse | http_server/handle/authorize.go:203-227 | adding then deleting restores the list; deleting then adding moves the key to the end |
| KeyList.ListAuthorized | http_server/handle/authorize.go:583-617 | the listing in list order, with notes and device by cid |
| KeyList.ListingShowsEach | http_server/handle/authorize.go:583-617 | what the listing shows of each key in its place: algorithms, cid then public key, notes by cid; of the master's own address nothing |
| KeyList.ListingShows | http_server/handle/authorize.go:583-617 | the listing shows exactly the list without the master, in order |
| KeyList.ListingAfterAdd | http_server/handle/authorize.go:583-617 | adding another device appends exactly its entry |
| KeyList.ListingAfterDelete | http_server/handle/authorize.go:583-617 | deleting a listed device takes out exactly its entry |
| KeyListCell.UpdatesAreLinearizable | http_server/handle/authorize.go:154-298 | for every interleaving of building, caching, sending and committing, the live list is the committed requests in commit order applied to the initial list, each valid at its turn; the capacity is the initial one less sizes and fees |
| KeyListCell.CommittedRequestsValid | http_server/handle/authorize.go:203-227 | each committed add found its key absent and a place free in the list the earlier commits left, and put it at the end; each committed delete found its key and took out its position |
| KeyListCell.BuiltForRequest | http_server/handle/authorize.go:154-245 | a built transaction consumes the outpoint read, keeps the request, makes its change to the list, and pays size and 1000, or names more capacity than there is |
| KeyListCell.ConsumedListIsSerial | http_server/handle/authorize.go:177-198 | the list a committed transaction was built from is the result of the requests committed before it |
| KeyListCell.NoOutpointConsumedTwice | http_server/handle/authorize.go:165-169 | no two committed transactions consume the same outpoint |
| KeyListCell.StaleNeverCommits | http_server/handle/authorize.go:281-291 | after an outpoint has been consumed no transaction that consumes it commits |
| KeyListCell.AddedKeyStays | http_server/handle/authorize.go:203-227 | a committed add is visible until a committed delete of the same key |
| KeyList.IndexIsUniquePosition | http_server/handle/transaction.go:112-120 | keys outside the list have no index; for others it is the first position that holds their cid and public key, and the only one in a list without duplicates |
| KeyListCell.IndexAtCommit | http_server/handle/transaction.go:112-127 | when a signed transaction commits, the index appended at sending is the signer's only position in the list the earlier commits left |
| HttpHandle.HttpHandle.Authorize | http_server/handle/authorize.go:203-298 | when a request is accepted and which error it gets otherwise; the change it makes to the list at the outpoint, the capacity left, and what is cached |
| HttpHandle.HttpHandle.TransactionSend | http_server/handle/transaction.go:76-176 | which answer is given when; each webauthn message gets exactly one number appended, the signer's only position in the consumed list, and nothing else in the signatures changes; the pending row exactly after a successful send |
| CreateCell.BuildCreateKeyListCfgTx | http_server/handle/authorize.go:454-492 | the outputs hold the total less the fixed fee; nothing wraps |
| CreateCell.CreateKeyListCfgCell | http_server/handle/authorize.go:335-367 | inputs equal outputs plus 10000, the size and 1000 if and only if the last output can pay; the 161 CKB floor holds with change, and without change exactly if the cell exceeds it by the fee |
| SignalHub.Hub.JoinBroadcast | http_server/handle/webrtc_websocket.go:74-97 | all peers present are told, and the maps get the new pair |
| SignalHub.Hub.JoinReply | http_server/handle/webrtc_websocket.go:99-125 | the joiner gets all other cids, or no message when there are none |
| SignalHub.Hub.Relay | http_server/handle/webrtc_websocket.go:126-138 | one message is written, to the connection of its addressee, or none; the maps do not change |
| SignalHub.Hub.Leave | http_server/handle/webrtc_websocket.go:38-46 | removes the connection and the cid it maps to, or the empty cid |
| SignalHub.JoinKeepsInverse | http_server/handle/webrtc_websocket.go:95-96 | a join keeps the maps inverse if and only if neither side is paired with another |
| SignalHub.LeaveKeepsInverse | http_server/handle/webrtc_websocket.go:38-46 | a leave keeps the maps inverse if and only if the connection had joined or nobody uses the empty cid; then none of its entries is left |
| SignalHub.PeerMapsStayInverse | http_server/handle/webrtc_websocket.go:38-138 | in all orderly runs the maps are inverse, and a cid maps to exactly the live connection that joined as it |
| SignalHub.ForwardReachesExactly | http_server/handle/webrtc_websocket.go:126-138 | in all orderly runs a forwarded message is written exactly once, to the live connection that joined as its addressee, and to nobody if there is none |
| SignalHub.JoinTellsExactly | http_server/handle/webrtc_websocket.go:74-93 | in all orderly runs a join is told to every live connection, once each, and to no other |
| SignalHub.AnswerTellsExactly | http_server/handle/webrtc_websocket.go:99-125 | in all orderly runs the reply names exactly the other live connections, not the joiner, and goes to the joiner only |
| SignalHub.MutualDiscovery | http_server/handle/webrtc_websocket.go:73-125 | over all interleavings of the two phases, two live connections that had their replies have each been told of the other, by messages sent since the later of them joined |
| SignalHub.RejoinLeavesEntry | http_server/handle/webrtc_websocket.go:38-46 | a second join leaves an entry of a closed connection |
| SignalHub.SharedCidCutsOff | http_server/handle/webrtc_websocket.go:38-46 | with a shared cid, one leave cuts off the other connection |
| RedisLock.RedisCache.LockWithRedis | cache/api_limit.go:22-38 | takes the lock exactly when no unexpired one exists |
| RedisLock.RedisCache.Unlock | cache/api_limit.go:34-36 | deletes the key, whoever set it |
| RedisLock.LockIsExclusive | cache/api_limit.go:22-38 | if every holder releases in time, at most one worker per key is in the section, over all interleavings |
| RedisLock.AcquiredExactlyWhenFree | cache/api_limit.go:22-38 | if every holder releases in time, a worker gets a key exactly when nobody holds that key, whatever other keys are held |
| RedisLock.OverrunFreesAnothersLock | cache/api_limit.go:34-36 | a run in which an overrunning holder lets a third worker in |
| RedisLock.HoldTimeIsExact | cache/api_limit.go:22-38 | in all runs in which every holder releases before it has held for d, at most one worker per key is in the section, if and only if d is at most four minutes |
| Duration.TruncatedUnit | tool/time.go:10-13 | truncating the hours, minutes or seconds gives the quotient of the duration, negative ones included |
| Duration.GetDurationFormatBySecond | tool/time.go:8-27 | prints the text of the whole seconds that the 64-bit duration holds; up to 9223372036 seconds the non-zero units of the argument in shortest decimal form, and nothing for zero or a negative argument |
| Duration.Decompose | tool/time.go:10-13 | days, hours below 24, minutes and seconds below 60 that sum up to the seconds |
| Duration.RoundTrip | tool/time.go:8-27 | reading the text back gives the argument if and only if it lies in 0 to 9223372036 |
| Duration.PrinterIsInjective | tool/time.go:8-27 | within that bound different arguments print differently |

## Left out

- NoBlockSkipped: batches in runs meet one chain on which the row below the cursor lies; `BatchLinksExactly`, `StaleStartGoesUnseen` and `MidBatchReorgGoesUnseen` say what the others lose.
- ConfirmationsAgree: the sweep's own confirmations are not part of the run, because the node may answer them from a chain the parser does not follow.
- BlockParser.BlockParser.Round: the tip number is a parameter; sleeping, cancellation and the order of goroutines are not modelled.
- HttpHandle.HttpHandle.TransactionSend: errors of decoding the cached text, of the address and of looking up the key list are not modelled, nor the rate limit key; the bytes of a signature are numbers, and the index is appended as one of them.
- HttpHandle.HttpHandle.Authorize: witness, molecule encoding, digests and the choice of the sign key are das-lib's and not part of this model; the outpoint is a parameter.
- KeyListCell.UpdatesAreLinearizable: the ledger commits in one order and does not reorganise; the sizes of transactions are below 2^64 - 1000.
- Duration.GetDurationFormatBySecond: hours, minutes and seconds are computed over the reals; beyond the bound of `RoundTrip`, where a wrapped duration has a fraction of a second, rounding to 64-bit floats may print another second.
- PendingRow: chain type and capacity of a pending row, which no update reads or writes.
- Listing: errors while an address is formatted or a cid is looked up.
- MySQL, GORM and Redis internals, HTTP routing, JSON, logging, metrics and notifications.
- `doAuthorize` and `checkCanBeCreated`: they only choose between creating a cell and using the known outpoint.
- `doTransactionStatus` beyond its lookup by hash, and the other lookups: reads of one row.
- Signature recovery and verification, the cid registry, contract version lookup: outside libraries or lookups.
- `TxTimer` is not started by the service's main command; a sweep is a step that may happen, not one that must.
