# AICash: wallet locks, connections, mint supervision, launches, metered selling

Models of the stateful code around the AICash mint, and proofs of what that code
promises. Each module follows one component; what lies outside it (the mint's
ledger, the standard library's request parsing, the kernel, the disk, the network,
the clock) is left open: an arbitrary choice, or an oracle bound only by its stated
contract.

| module | component |
|---|---|
| `WalletLocks` | per-wallet locks of the operator GUI: any number of concurrent payments, receipts, recoveries and creations, stepped by an arbitrary scheduler |
| `Wrappers` | what several modules share |
| `Http` | what goes out on a connection and how lines and header blocks are read, shared by the two servers |
| `GuiConnection` | one keep-alive connection to the GUI: reading, framing, answering, the write budget, every exception path |
| `Console` | one request to the operator console, which never may end in silence |
| `MintControl` | the supervisor: status, start and stop over a process table with recycled pids and a state file that can vanish |
| `LaunchHistory` | the key file over any number of launches, crashes and power cuts, and what the mint publishes meanwhile |
| `MeteredSeller` | serve first, redeem in batches later, against a ledger on which others spend |
| `UnredeemedReport` | the headline over what a wallet paid out and nobody redeemed |
| `PastedKey` | which pasted strings open the page, and which are called damaged |
| `Redaction` | credentials in log lines and the list of their digests |

Objects whose methods update fields are classes, loops are loops, and a call that can
fail can fail at every point where the program's can. Interleaving with the rest of
the machine is an explicit step before each read. Beside what holds whatever fails,
each stateful component states exactly what it does where nothing does: a constant (`calm`,
`healthy`, a machine that keeps still) says so, and every clause that needs it names it.

## Where the code does less than its documentation says

- One request may carry the same token twice; the seller then accepts more than it
  can redeem and `held_keys` loses a key that is still held
  (`MeteredSeller.RepeatedTokenBreaksHeldKeys`). Conservation holds all the same;
  at-most-once service, and `held_keys` being the keys held, hold exactly when no
  request repeats a token (`MeteredSeller.ServedAtMostOnce`,
  `MeteredSeller.HeldKeysTrueExactly`).
- The header reader takes the end of the stream for the empty line that closes a head,
  so the last request on a connection can be one whose head was cut short; a request
  line and the end of the stream will do (`GuiConnection.CutHeadIsARequest`). Among the
  sequences of requests that can be acted on one after the other, which is all that
  `GuiConnection.Handler.Serve` ever takes, one with a cut head exists exactly when the
  stream's last request is cut, can be acted on, and stands only behind requests after
  which the connection goes on (`GuiConnection.StreamIsStrictIff`). On every other
  stream no run takes one; on such a stream it is taken where nothing fails, the gate
  lets the requests before it pass, and routes read their bodies
  (`GuiConnection.Handler.TakesAll`).
- "No request leaves this server with no answer at all" (gui/app.py:3607-3608) does not
  hold of a request line without words, nor of one empty line and the end of the stream:
  the connection closes in silence. Where nothing fails, these and a stream that has
  ended are exactly the turns without an answer (`GuiConnection.SilentExactly`,
  `GuiConnection.BlankLineIsSilent`, `GuiConnection.Handler.HandleOneRequest`).
- What is sent before a request line has been read goes by the method of the request
  before it: the 408 after a silent wait or after one empty line and silence, and the
  400 after two empty lines, have their body exactly when that was not a HEAD
  (`GuiConnection.Handler.HandleOneRequest`).
- A console route that relays an interim status given by the mint's port leaves its
  request without a final response; nothing else can
  (`Console.Console.HandleOneRequest`).
- A live mint is reported stopped when its command line cannot be read, or when its
  `--port` is missing or out of range and the state file does not name it, and, with
  nothing moving and no read failing, at no other time
  (`MintControl.OutOfReachExactly`, `MintControl.MintControl.Status`). A read of /proc
  that fails reads as an absent process.
- stop() can return as if it were done and leave such a mint serving: with nothing
  moving and signals that work, exactly then (`MintControl.MintControl.Stop`).
- stop() on an adopted mint can signal a program that has just been given its pid: a
  signal can reach another process exactly when the machine moves and the pid is not
  this process's own and not an unreaped child's (`MintControl.SignalAstrayExactly`).
  For the control's own child it cannot (`MintControl.MintControl.TakeDown`).
- Between the rename and the directory sync a new key file is readable and a power cut
  can still take it away, unless it says what was there already
  (`LaunchHistory.SettledBeforeSyncExactly`). A launch that follows such a crash at
  once may publish what the disk then forgets: two key pairs in the end
  (`LaunchHistory.TwoKeyPairsPublished`). The history stays sound over a publication
  exactly when every text that can survive vouches for it (`LaunchHistory.Host.Note`),
  and throughout where each launch torn in that window is followed by a write-back or a
  power cut before the next (`LaunchHistory.Host.History`).
- A string that comes without its amount, or in a payment that comes without its list
  of tokens, counts as nothing and keeps the headline a confident figure
  (`UnredeemedReport.MissingFieldsMislead`); the figure is right exactly when nothing
  of either kind is lost (`UnredeemedReport.FigureStandsExactly`).
- A credential that touches other characters of its own alphabet can be read exactly
  when the digest of the whole run is not on record (`Redaction.CredentialShowsExactly`).
- The digest list is the 200 most recently first-presented digests only as long as no
  dropped one is presented again (`Redaction.ListExactly`).

## Model

| member | source | states |
|---|---|---|
| WalletLocks.LockOrder | gui/app.py:2153-2155 | the locks a request takes are its own wallet's and the other wallet's, each once, in Python's string order, however the two names compare |
| WalletLocks.NeverShared | gui/app.py:1165-1167 | in every reachable state of any number of requests no name among the locks one of them has taken and not yet given back is among those of another |
| WalletLocks.Serialisable | gui/app.py:2377-2423 | whatever the interleaving, the wallets end as some serial order of the whole requests leaves them (the order in which they got their last lock, each request once), and each request returns what it returns in that serial run |
| WalletLocks.ApplyIs | gui/app.py:2377-2423 | inside its locked wallets a step does what its own function says, given those wallets; outside them nothing changes |
| WalletLocks.SerialisablePlain | gui/app.py:2377-2423 | for steps that look at and change their locked wallets only, the run ends as the plain composition of the step functions, whole requests one after another, each step on all the wallets; and each request returns what that composition returns |
| WalletLocks.BeforeIs | gui/app.py:2153-2155 | the lock order is the dictionary order of the names: the first difference decides and a prefix comes first |
| WalletLocks.NeverStuck | gui/app.py:2149-2192 | while any request is unfinished some request can move: no deadlock, for any number of requests and wallets and any directions of payment |
| WalletLocks.RunLength | gui/app.py:2377-2423 | every move uses up exactly one unit of the acquisitions, steps and releases there were, so a run has a fixed length and is finished exactly when it has made it |
| WalletLocks.AlwaysFinishes | gui/app.py:2816-2822 | every reachable run can be carried on to one in which all requests are done |
| WalletLocks.CallOrderDeadlocks | gui/app.py:2377-2383 | without the name order two payments in opposite directions do reach a state in which neither can move |
| Http.ExchangeMeans | gui/app.py:3162-3231 | the shape kept on the wire means at most one final response, a 100 Continue only before it, and nothing after a failed write |
| Http.WholeHasOneFinal | gui/app.py:3162-3231 | a completed exchange holds exactly one final response |
| Http.LineEndIs | gui/app.py:3748-3909 | a line goes up to and with its first line feed, or 65537 octets, or the end of the stream |
| GuiConnection.StrictIsAllButACutHead | gui/app.py:3748-3909 | on every octet stream the two reference parsers differ in at most the last request, and only in whether its head was closed by an empty line |
| GuiConnection.TakenIsStrictIff | gui/app.py:3748-3909 | the requests acted on are a prefix of the strict reference's exactly when the last one's head was closed by an empty line |
| GuiConnection.StreamIsStrictIff | gui/app.py:3748-3909 | every sequence of requests that can be acted on one after the other is a prefix of the strict reference exactly on streams whose last request is whole, or not to be acted on, or behind one that ends the connection |
| GuiConnection.CutHeadIsARequest | gui/app.py:3748-3909 | for any request line the library reads that frames without a header, the line and the end of the stream are a request to the reader and none to the strict reference |
| GuiConnection.NeverInsideABody | gui/app.py:3968-4160 | no request starts before the one before it, declared body included, has ended |
| GuiConnection.TakenIsFramed | gui/app.py:3748-3909 | where nothing fails a turn takes a request exactly when the reference parser finds one there that has an implemented method, an origin-form target and no promise asked for too large a body; and it is that one |
| GuiConnection.SilentExactly | gui/app.py:3607-3688 | where nothing fails a turn sends nothing exactly when the stream ends here or after one empty line, or the line here has no words |
| GuiConnection.BlankLineIsSilent | gui/app.py:3607-3688 | a line of one blank gets no answer |
| GuiConnection.Handler.TakesAll | gui/app.py:3607-3688 | every request on the stream is taken where each but the last leaves the connection open, passes the gate, and has a route for its body |
| GuiConnection.ConnectionMeans | gui/app.py:3607-3746 | over a whole connection request i is answered in turn i by at most one final response, every request but the last turn's by exactly one, there is at most one turn more than there are requests, and a failed write is the last thing that happened |
| GuiConnection.Handler.Write | gui/app.py:2965-2988 | a write is given what is left of the budget, fails before sending once the budget is spent or the connection has failed, and never takes the total past the budget |
| GuiConnection.Handler.Send | gui/app.py:3162-3231 | from the first octet of a response on the request counts as answered; it goes out whole or the connection closes, and nothing is sent after a failed write; where nothing fails, exactly the status line, and the body but for a HEAD |
| GuiConnection.Handler.RefuseTransport | gui/app.py:3233-3273 | a refusal by the transport: the connection closes and the answer, if it goes out at all, is one response |
| GuiConnection.Handler.ReadBody | gui/app.py:3490-3552 | returns exactly the declared octets and consumes no others, or fails, with 413 above the limit and 400 otherwise; a declared length of 0 never fails; where reads go through it succeeds exactly when the length is stated, within the limit and on the stream |
| GuiConnection.Handler.HandleExpect100 | gui/app.py:3911-3965 | a 100 Continue is sent only for a request whose framing stands and whose body is not too large; a refusal closes the connection |
| GuiConnection.Handler.ParseRequest | gui/app.py:3748-3909 | one leading empty line at most, then the head the reference parser finds at the same place; where nothing fails it goes on, or answers with its own code, or is silent, as the reference for a turn says |
| GuiConnection.Handler.Dispatch | gui/app.py:3968-4160 | a POST route is called with exactly the declared body, and no route without its request having been taken, let pass by the gate, routed and parsed; a refusal by the gate closes; where nothing fails the one status is that of the first check that stops it, or the route's |
| GuiConnection.Handler.Handle | gui/app.py:3968-4160 | a request the reference parser yields is taken at most once, and the connection is kept only after one that keeps it alive and need not close it, with the stream at the next boundary and a whole response out; where nothing fails it is taken exactly if it is versioned and framed, answered with its own status, and the connection kept exactly if the gate let it pass and its body, if any, is off the stream |
| GuiConnection.Handler.HandleOneRequest | gui/app.py:3607-3746 | whatever is raised inside, the exchange keeps its shape and at most one request is taken; a connection kept open has taken exactly one that keeps it alive, given it one whole response, and stands at the reference parser's next request; where no request line was read (silence, an empty line and silence, two empty lines) the answer, uncut, has its body exactly when the method left by the request before is not HEAD. Where nothing fails the request the reference parser finds, if it can be acted on, is taken and gets its one status; anything else is refused with 400 or more and closes; one final response goes out in every turn but a silent one; and the connection is kept exactly after a request that keeps it, passed the gate and left no body behind |
| GuiConnection.Handler.Serve | gui/app.py:3607-3688 | for every octet stream: dispatched requests are a prefix, in order and without repeats, of the reference parser's, each with an implemented method on an origin-form target and all but the last keeping the connection alive; each POST call gets its declared body; turn by turn each request taken gets its one exchange, whole up to the last turn and headless just for a HEAD; total write time stays within the budget. Where nothing fails the prefix is the longest there is, request i is answered by exactly its own status, and a route is called exactly for the requests that pass the gate, name one, and have a body that is there and parses |
| Console.Console.HandleOneRequest | mint_console.py:1445-1593 | on a socket that takes writes, one final response exactly when an octet came or the clock ran out, unless a route relayed an interim status; on any socket at most one; with time enough, exactly the good requests with GET or POST are dispatched and answered with the status of the first check that stops them or the route's, and all else is refused with 400 or more |
| Console.Console.ParseRequest | mint_console.py:1017-1245 | a request line after at most eight empty lines, with a block that splits and frames, goes on unless reading fails; everything else (longer runs, both HTTP/0.9 spellings, unframable heads) is answered |
| Console.Console.ReadJson | mint_console.py:1865-1980 | a body is accepted only when exactly the declared octets, and no more than the limit, were read; in every other case the caller has been answered, a timeout included; with time enough, accepted exactly when stated, within the limit, there, and parsed |
| MintControl.Kernel.Churn | gui/mintctl.py:153-177 | what can happen between two reads: exits, reaping, pids reused by later processes; an unreaped child keeps its pid |
| MintControl.SeenServer | gui/mintctl.py:261-289 | a server seen during a call was there when it began, under the same pid, if nobody else starts servers; and it can be found if all servers can |
| MintControl.MintControl.ProcessMatches | gui/mintctl.py:527-575 | true only with a live server of this ledger under the recorded pid at that very read; with nothing moving and no read failing, exactly when the record names it, its start time agrees and its command line can be read |
| MintControl.MintControl.FindLedgerServer | gui/mintctl.py:261-289 | what it finds was seen serving this ledger during the scan; finding nothing, when no read fails, means no server with a readable command line lived through the scan |
| MintControl.MintControl.Adopt | gui/mintctl.py:577-625 | adopts only a server seen serving during the scan, with a usable port that is its own; none adopted means none lived through the scan, where servers can be found; with nothing moving, no read failing and at most one server, it adopts exactly when there is one to adopt |
| MintControl.MintControl.Status | gui/mintctl.py:683-798 | running means a live non-zombie server of this ledger was seen under the reported pid within the call, whatever reads failed; a server that can be found and lives through the call is reported; with nothing moving, no read failing and at most one server, running exactly when its command line can be read and the record names it or its port is usable, and answering exactly if its port does; running pairs with a real boolean and stopped with none; the record ends naming the mint reported, or nobody, if it can be written |
| MintControl.OutOfReachExactly | gui/mintctl.py:557-605 | for one live server, all the ways to be out of reach of record and scan alike: an unreadable command line, or an unusable port with a record that does not name it |
| MintControl.MintControl.SendSignal | gui/mintctl.py:1351-1366 | the child is polled first; alive, it and nothing else gets exactly that signal, and unreaped it keeps its pid |
| MintControl.MintControl.Terminate | gui/mintctl.py:1351-1366 | only the child is signalled, SIGTERM first and SIGKILL at most once after it, neither if it was reaped already; if SIGKILL works it is reaped at the end |
| MintControl.MintControl.AwaitDescriptor | gui/mintctl.py:1311-1344 | either the child is kept untouched and was alive at the last poll, or, if SIGKILL works, it is dead; a live child that answers for itself is kept |
| MintControl.StartedAlone | gui/mintctl.py:871-968 | a start begun when nothing was found running: whatever serves afterwards was not there before, and with nobody else at work it is the child |
| MintControl.MintControl.Start | gui/mintctl.py:871-968 | a normal return means the child served at an instant within the call, with nobody else at work as the only server then; it is reported running if it still lives; no child is started beside a server that lives through the call; with nobody else at work no server is ever started beside another and at most one serves, only the child; a refusal after the child was started leaves it dead; a failed state-file write leaves it owned. Where nothing moves or fails and at most one mint serves, it returns normally exactly when the settings were accepted, the port is 1 to 65535 and neither record nor scan shows a mint, and then the child serves, is reported with its port, and is what the record names |
| MintControl.MintControl.WaitGone | gui/mintctl.py:1416-1430 | true means, unless a read failed, that what had the pid is gone; false, that the pid was seen in the table; a reaped or zombie child is always noticed, and with nothing moving so is an absent or dead process |
| MintControl.MintControl.TakeDown | gui/mintctl.py:996-1023 | signals go to that pid alone: SIGTERM always first, to whatever has the pid then, unless nothing has or it is not permitted; SIGKILL only after the pid was seen again; it gives up only when both were tried; where nothing moves and SIGKILL works and is permitted it never gives up, whoever started the mint; on the control's own child every signal reaches that child, permission is never the problem, and if SIGKILL works it is gone |
| MintControl.FirstTry | gui/mintctl.py:996-1003 | the first of these signals, if it was sent, is a SIGTERM to whatever had the pid at that instant, and it failed for want of a process exactly if nothing had |
| MintControl.MintControl.Stop | gui/mintctl.py:970-1027 | with nobody else at work no server is left when it returns; when only the own child can be serving every signal reaches that child in any interleaving, and it does return; a bad budget changes nothing. Where nothing moves, signals are permitted and SIGKILL works, it returns, for an adopted mint as for a child, and the one mint there was is gone exactly when the record named it or the scan could find it |
| MintControl.MintControl.History | gui/mintctl.py:683-1027 | any sequence of start, stop, status and GUI restarts, with the state file lost or replaced at any read: no server is ever started beside another, and at most one serves; where nothing moves or fails a mint serves at the end exactly if the calls say so |
| MintControl.SignalAstrayExactly | gui/mintctl.py:153-170 | a signal to a pid can reach another process than the one seen there exactly when the machine moves and that one is neither this process nor an unreaped child of it |
| LaunchHistory.WritingKeepsTarget | run_mint.py:119-127 | while the temporary file is written the target reads, and survives a power cut, as before |
| LaunchHistory.RenameIsAtomic | run_mint.py:126-127 | the rename of a synced file shows the new text at once, and a power cut leaves what it could leave before or the new whole: the old or the new, if the file was settled |
| LaunchHistory.SyncDirSettles | run_mint.py:140-152 | after the directory sync only the new text can survive |
| LaunchHistory.RenameWithoutFsyncTears | run_mint.py:95-99 | without the fsync a power cut can leave text that is neither |
| LaunchHistory.SettledBeforeSyncExactly | run_mint.py:127-152 | killed between the rename and the directory sync, the file is settled exactly when the text it held was the new one; otherwise the old can still come back |
| LaunchHistory.TwoKeyPairsPublished | run_mint.py:263-324 | for any two blobs with different keys: first launch killed in that window, the next publishes the first keys, a power cut, and the one after generates and publishes the second; that history is not honest |
| LaunchHistory.Host.WriteSecret | run_mint.py:88-152 | stopped after any step, the target is for the next process the whole old or the whole new text, and for a power cut the new whole or what could survive before; on success the new one, for good, under the one name and with every other file untouched; a settled disk is left settled unless it was stopped between the rename and the directory sync; where nothing fails it succeeds exactly if the temporary name was free |
| LaunchHistory.Host.LoadOrCreate | run_mint.py:263-324 | goes on with the stored keys and pin, a generated pair only where there was no file; refuses exactly when the file names another id or another baseline, or none that anybody asserted, and then touches nothing; however it ends, the file keeps its key pair, a set id and baseline and the pin, and so does whatever newer text a power cut can leave; on success the file holds this id and baseline; where nothing fails it fails only on a file that is no key file |
| LaunchHistory.Host.PinRetention | run_mint.py:327-349 | on success the same blob with the retention pin set and nothing else changed; however it ends, key pair, id, baseline and pin are kept |
| LaunchHistory.HonestGrows | run_mint.py:161-192 | publishing or pruning what the key file vouches for keeps the history honest and the file a record of all of it |
| LaunchHistory.Host.Note | run_mint.py:755-823 | the invariant survives a publication or a prune exactly when every text that can survive a power cut vouches for it; a file at rest does |
| LaunchHistory.Host.Launch | run_mint.py:700-876 | one process lifetime from any state of the disk, cut short anywhere: all it adds to the history describes the one blob it loaded, with a retention claim that is exactly "pruning now or pinned", and prunes only when asked for; the key file keeps its pair, a set id and baseline and the pin; from a disk at rest the file still vouches for the whole history, and the disk is left at rest unless a write was torn, which ends the launch. A conflict with the file changes nothing; without one, and where nothing fails, it shows its descriptor at once and then, round by round, the descriptor or a deletion, and the file ends as the loaded blob pinned as claimed |
| LaunchHistory.Host.PowerCut | run_mint.py:140-142 | what a power cut leaves is one of the contents that can survive it, and still vouches for the whole history |
| LaunchHistory.Host.History | run_mint.py:263-349 | over any launches, crashes, write-backs and power cuts, if every launch torn between rename and directory sync is followed by a write-back or a cut before the next (or the power never fails): one key pair, id and baseline in everything ever published, no claim to keep spent records once some are gone, the pair never changing once there, nor id and baseline once set, and the pin never reverting; where nothing fails but the power, everything shown is what the launches show one after another, each starting from the blob the one before left |
| MeteredSeller.RunConserves | examples/j3-metered-api/metered_api.py:159-268 | over every run with an adversarial ledger, face value accepted is held, lost to fraud or redeemed, and redeemed value is revenue or burned, even when a request repeats a token |
| MeteredSeller.RunBooksTheNet | examples/j3-metered-api/metered_api.py:237-266 | over every run the burned figure grows by what the redemptions burned, and each redemption, and nothing else, adds a revenue entry: the face value held just before it less its own burn |
| MeteredSeller.DropBadFacts | examples/j3-metered-api/metered_api.py:254-262 | removing the refused positions highest first removes exactly those entries' value, once each |
| MeteredSeller.DropKeepsTheRest | examples/j3-metered-api/metered_api.py:254-262 | with distinct keys what stays is the other positions in their order |
| MeteredSeller.DropShrinks | examples/j3-metered-api/metered_api.py:230-263 | a refusal with a valid position strictly shrinks what is held, so the retry loop ends |
| MeteredSeller.DropKeys | examples/j3-metered-api/metered_api.py:254-262 | with distinct keys held_keys is still the key set of what is held afterwards, and no dropped key is spendable |
| MeteredSeller.ServedAtMostOnce | examples/j3-metered-api/metered_api.py:186-211 | with spent permanent, no key is accepted for service twice in a whole run if and only if no single request repeats a token |
| MeteredSeller.HeldKeysTrueExactly | examples/j3-metered-api/metered_api.py:186-211 | held_keys is the key set of what is held, without repeats, after every step of a run if and only if no single request repeats a token |
| MeteredSeller.RepeatedTokenBreaksHeldKeys | examples/j3-metered-api/metered_api.py:186-191 | a two-step run in which one request repeats a token and held_keys loses a held key |
| MeteredSeller.MeteredSeller.DropRefused | examples/j3-metered-api/metered_api.py:254-262 | the loop over refused positions does exactly that to held, held_keys and fraud_mc |
| MeteredSeller.MeteredSeller.RedeemOnce | examples/j3-metered-api/metered_api.py:235-268 | one pass: on success the face of what was held is what the mint priced, the one output and the one revenue entry are that less the burn the mint asked for, and nothing is held; on a refusal face moves to fraud_mc and nothing else; with a mint that answers and nobody else at work it never fails, and succeeds at once if every key is unspent and distinct |
| MeteredSeller.MeteredSeller.RedeemHeld | examples/j3-metered-api/metered_api.py:230-268 | ends; what happens on the way is a legal run of refusals and at most one redemption; when it returns without an exception nothing is held, and what was held is fraud_mc or one revenue entry of its face less the burn the mint asked for; with a mint that answers and nobody else at work it does return |
| MeteredSeller.MeteredSeller.HandleRequest | examples/j3-metered-api/metered_api.py:159-211 | a refusal changes nothing on the books and names the first thing wrong, in the order of the checks; a served bearer request passed every check, was accepted once, and is held, or with ten or more held everything is redeemed; with a mint that answers and nobody else at work nothing is raised, and a request that passes the local checks is served exactly if all its keys are unspent, and else refused at exactly the positions that are not |
| MeteredSeller.MeteredSeller.Session | examples/j3-metered-api/metered_api.py:159-268 | any sequence of requests is one legal run with conserved books, and after each call, as long as none has raised, fewer than ten tokens are held; with a mint that answers and nobody else at work none raises; each answer is the one the request alone decides, where it does |
| MeteredSeller.MeteredSeller.HandleChannelDraw | examples/j3-metered-api/metered_api.py:288-299 | served exactly when the channel is known and the draw is good, an unknown channel refused first; nothing but `served` changes on the books |
| MeteredSeller.Mint.Exchange | impl/aicash/ledgerstore.py:466-478 | all or nothing: every position refused is spent, unknown or a repeat within the call; where nothing else is wrong with the call it goes through exactly when no position is, and else names exactly those |
| UnredeemedReport.BucketsSum | gui/app.py:2655-2659 | the four buckets sum to the listed token value |
| UnredeemedReport.Outstanding | gui/app.py:2606-2788 | the loops over payments and their tokens: each bucket is the value in its state, the four sum to the whole listed value, and the truncation flag and headline obey the component where it speaks and the page size, 20 unless asked and 1 to 100, where it does not |
| UnredeemedReport.RankedKeeps | gui/walletops.py:3307-3312 | putting payments with value out first reorders the wallet and loses nothing |
| UnredeemedReport.FitsMeans | gui/app.py:2712-2724 | if a truthful report fits its window, by any of the four ways it can say so, what it leaves out has nothing live in it |
| UnredeemedReport.HeadlineIsTheWholeWallet | gui/app.py:2759-2773 | a figure in the headline, whatever optional fields a truthful component omits, plus the live value of strings without an amount or not listed, is the whole wallet's unredeemed value; with every string listed and priced it is that value |
| UnredeemedReport.FigureGivenExactly | gui/app.py:2667-2773 | a truthful component that lists and prices every string gets a figure exactly when the mint was asked, called every listed string unspent or spent, and no value is out beyond the window or, unsaid, no payment can be; and the figure is the whole wallet's unredeemed value |
| UnredeemedReport.NullNeverBecomesAFigure | gui/app.py:2667-2724 | with every token list and amount present, leaving out any other optional fields can turn a figure into null, never null into a figure, and never change a figure |
| UnredeemedReport.FigureStandsExactly | gui/app.py:2606-2724 | with amounts and whole token lists left out too, a figure that is still given is the complete report's exactly when nothing is lost but of strings reported spent |
| UnredeemedReport.MissingFieldsMislead | gui/app.py:2611-2659 | a string of unstated value 5 sent without its amount, or a payment sent without its token list, turns null into 0 |
| PastedKey.Trimmed | gui/app.py:647-691 | the two bounded loops strip all edge whitespace at both ends, or, where either end has more than eight, nothing |
| PastedKey.KeyOkExactly | gui/app.py:775-781 | the strings that open the page are exactly the key between at most eight of space, tab, CR, LF at each end |
| PastedKey.DamagedExactly | gui/app.py:783-817 | whatever opens the page is the key once all whitespace is gone, and the diagnosis is given exactly to the other strings of which that is true |
| Redaction.NothingLeft | gui/mintctl.py:1135-1144 | after redaction no whole run of 16 or more of the 64 credential characters has a digest on record |
| Redaction.UntouchedExactly | gui/mintctl.py:1135-1144 | text is left as it is exactly when it holds no such run |
| Redaction.EachRunAlone | gui/mintctl.py:1135-1144 | each whole run of those characters is replaced by the notice exactly if it is 16 or longer and its digest is on record, and the text on both sides is redacted as if it stood alone |
| Redaction.Idempotent | gui/mintctl.py:1135-1144 | redacting twice is redacting once |
| Redaction.CredentialShowsExactly | gui/mintctl.py:1135-1144 | a credential of 16 or more anywhere inside a whole run can be read in what the run becomes exactly when the digest of the run is not on record; the text on both sides is redacted as if alone |
| Redaction.ListIsSound | gui/mintctl.py:1116-1133 | for every history the list has no digest twice, at most 200, and the one just presented |
| Redaction.ListExactly | gui/mintctl.py:1116-1133 | the list is all along the 200 most recently first-presented digests if and only if none returns after being dropped |
| Redaction.TokenDigests.Remember | gui/mintctl.py:1106-1133 | the digest just presented is known to the redaction that follows even if the file cannot be written; the file gets the list with it, the 200 newest, exactly if it can be and the digest is new |

## Left out

- WalletLocks.Serialisable: what the mint answers a step is fixed with the step; a mint whose answers depend on the order of two wallets' calls is outside it.
- WalletLocks: requests that read without a lock (quote, history, summary, list, outstanding), and the request threads' other shared state.
- GuiConnection.Handler.Dispatch: what the access gate, the routing table, the JSON parser and the routes make of each request is an arbitrary input, request by request.
- GuiConnection.Handler.Write: that a send ends within the timeout it was given is assumed, and that a connection the kernel has given up carries nothing more; read deadlines are arbitrary timeouts.
- GuiConnection: the framing rule itself (its four-field contract is assumed), request-line syntax, page bodies, cookies and error wording.
- Console: the write deadline's arithmetic; a socket either takes what is written or fails.
- MintControl.Kernel.Churn: a process keeps its command line, and whether this process may read it, for life, so an exec in place is an exit and a start.
- MintControl: the fallback for systems without /proc, the descriptor probe's answers (arbitrary), log excerpts, and two GUIs on one workdir at once.
- MintControl.MintControl.Stop: with other programs starting mints on the same ledger, only the pid's fate is stated, not that no server is left.
- LaunchHistory.Host.Launch: two launches at once are not modelled.
- LaunchHistory: admin token and supervision key files, handler draining, signals.
- MeteredSeller.Mint.Exchange: problem positions that are negative or past the batch, which the ledger never reports, and the burn formula beyond its bounds.
- UnredeemedReport: recovered operations, delivery records and the component's own identity over unaccounted value.
- PastedKey: sessions and constant-time comparison; two strings compare equal when they are equal.
- Redaction: the digest function is arbitrary.
- The ledger, wallet, channel, escrow, swap and supervision internals.
