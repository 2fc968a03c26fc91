# Verified models of unheaded's small state machines

Dafny models of the parts of the repository that keep state across calls, crashes or restarts, or that rewrite
text and history, with proofs of what their comments, tests and documents promise.  `dafny verify dfyconfig.toml`
checks everything.

| file | what it models |
|---|---|
| `PacketJournal.dfy` | packet-chaos: the revert journal in a file or in the Well, the move between them, and the run that journals, injects, reverts, verifies and un-journals, with a crash or a store error between any two steps |
| `Mailer.dfy` | the alert mailer: pages, tickets, the daily digest, the daily cap, and the state file that a restart reads back |
| `DriftSink.dfy` | Heimdall's drop-oldest drift queue with its one-slot wake channel, producers and publisher interleaved |
| `Triggers.dfy` | Heimdall's token bucket, horn policy and debouncer |
| `Heimdall.dfy` | Heimdall's drift scanner and event loop |
| `RateLimit.dfy` | the kanban app's per-client rate limiter and its cleanup |
| `Restarter.dfy` | Akira's restart budget per outage and its bounded refusal log |
| `Crc16.dfy` | the CRC-16/CCITT-FALSE of the Monad register, on integers and as bit-serial division |
| `Resign.dfy` | the commit-DAG rewrite that re-signs unpushed commits |
| `Splice.dfy` | the generated section of the findings document |
| `Textfile.dfy` | Huginn's Prometheus text filter, label splitter and host label |
| `Wrappers.dfy` | the option and result types the others share |

Code that changes fields step by step is a class here (or a step system where several goroutines share it); its
methods are proved equal to functions on values, and the theorems about whole runs are lemmas about those
functions.  Clocks, hashes, signatures, network answers and disk failures are parameters or arbitrary choices.

## What turned out not to hold as promised

Each of these has a lemma with the failing case and the exact condition.

- Moving the file journal into the Well takes a duplicate id as "already moved".  An entry whose id belongs to
  another row is then in neither store (`TakenIdLosesEntry`); every entry arrives exactly when the ids are
  claimable (`MoveCompletes`), as they are in a file of the program's own entries whose ids are not in use
  (`EachEntryOnce`).
- The mailer keeps its daily cap over a restart exactly when the state file counts every mail of the day
  (`RestartKeepsCap`); after a failed save it can send more (`CapBroken`).
- A delivered digest stays the only one of its day exactly when its first save succeeded and the second did too or
  no longer matters (`DigestOnce`); otherwise it can be delivered again (`DigestTwice`).
- The rate limiter's cleanup is invisible exactly when the idle time refills the burst (`ForgettingIsInvisible`),
  and its window bound holds exactly then (`BoundNeedsRefill`).
- Event-driven scans never hide drift exactly when, in every manifest that may be loaded, entries for one path agree
  on its hash (`EventScansNeverHideDrift`); two that disagree can silence all alerts (`ContradictionIsSilent`).
- Tickets of alerts without fingerprints are told apart by their labels exactly when no slash is in the SLO or the tier
  (`KeysTell`); with one they can be mistaken for each other (`KeysClash`).
- A textfile line to which a host with a brace in its name was added is dropped when fed back in; every other
  accepted line comes back unchanged (`Idempotent`).

## Model

| member | source | states |
|---|---|---|
| PacketJournal.DigitsRead | cmd/chaos-controller/journal.go:222-235 | the digits written for a number read back as that number |
| PacketJournal.IdTexts | cmd/chaos-controller/journal.go:222-235 | what the ids of a new and an old entry look like |
| PacketJournal.IdsApart | cmd/chaos-controller/journal.go:222-235 | ids of new entries are injective in their instant, ids given to old entries in instant and place, and the two kinds never coincide, for all integers |
| PacketJournal.EntriesApart | cmd/chaos-controller/journal.go:220-223 | in a file of the program's own entries, old ones without ids included, no two entries get the same id |
| PacketJournal.MoveCompletes | cmd/chaos-controller/journal.go:220-227 | after a finished move every entry is open in the Well under its id, with its fault, if and only if ids already there were that entry's own open row and entries sharing an id share their fault |
| PacketJournal.MoveAddsOnlyEntries | cmd/chaos-controller/journal.go:220-227 | the move changes no existing row and adds exactly one row per entry id that was missing |
| PacketJournal.MoveAgain | cmd/chaos-controller/journal.go:204-232 | a move cut off after k entries followed by one of m entries is one move of the longer length |
| PacketJournal.CutOffsDoNotMatter | cmd/chaos-controller/journal.go:204-232 | any number of cut-off moves followed by a finished one leaves the Well as a single move would |
| PacketJournal.EachEntryOnce | cmd/chaos-controller/journal.go:204-232 | a file of the program's own entries whose ids are not in use, moved with any number of cut-offs: once the move succeeds each entry is open in the Well under an id of its own, and there are exactly as many new rows as entries |
| PacketJournal.TakenIdLosesEntry | cmd/chaos-controller/journal.go:224-231 | with an id taken by another host's row the move succeeds and the entry is in neither store |
| PacketJournal.MoveKeepsListed | cmd/chaos-controller/journal.go:204-232 | at every cut-off no open row disappears, and once all entries are moved every fault of the file is listed in the Well or was lost |
| PacketJournal.NoneLost | cmd/chaos-controller/journal.go:220-232 | a finished move leaves no entry in neither store if and only if the ids were claimable |
| PacketJournal.MoveKeepsClaimable | cmd/chaos-controller/journal.go:204-232 | a move cut off anywhere can be taken up again |
| PacketJournal.Host.Save | pkg/statefile/statefile.go:52-87 | the file is replaced whole: the new contents on success, the old or the new on failure |
| PacketJournal.Host.AppendRow | pkg/database/chaos_store.go:79-91 | a new id is added, an existing id is refused as a duplicate and left alone, a failure may or may not have written |
| PacketJournal.Host.MarkReverted | pkg/database/chaos_store.go:93-107 | closes that row only; success means it is closed |
| PacketJournal.Host.OpenRows | pkg/database/chaos_store.go:109-154 | exactly this host's open packet rows, oldest first |
| PacketJournal.Host.Load | cmd/chaos-controller/journal.go:112-117 | all entries of the open store, or an error; every fault stays listed |
| PacketJournal.Host.Add | cmd/chaos-controller/journal.go:119-128 | success journals exactly the entry, failure leaves nothing unlisted |
| PacketJournal.Host.Remove | cmd/chaos-controller/journal.go:130-142 | un-journals an entry whose fault is gone (in the file, every entry with its pin; in the Well, its row and no other), and every fault in place stays listed even when the save or the database fails |
| PacketJournal.Host.MovePacketFile | cmd/chaos-controller/journal.go:207-232 | the Well is the old one with the first k entries moved, and the file is emptied only once all of them are |
| PacketJournal.Host.OpenWell | cmd/chaos-controller/journal.go:188-202 | whether the move succeeds, fails or crashes, every fault in place stays listed except those of entries the move lost, which are none when the ids are claimable; the file then stays movable |
| PacketJournal.Host.RevertEntry | cmd/chaos-controller/packetcmd.go:256-272 | the leftover is reverted, then checked, then forgotten exactly when both report no error and the check says gone; one that meets no failure is done |
| PacketJournal.Host.RevertPacketJournal | cmd/chaos-controller/packetcmd.go:244-274 | every loaded entry is reverted once, in order; zero kept means the store is empty, and is the answer when nothing fails; every fault in place stays listed through every failure and crash |
| PacketJournal.Host.RevertAll | cmd/chaos-controller/packetcmd.go:255-273 | the loop over the leftovers: each is tried, and zero kept means none is left |
| PacketJournal.Host.FinishPacket | cmd/chaos-controller/packetcmd.go:219-242 | the fault is reverted, then checked, then un-journaled exactly when the check says gone; exit 0 exactly when that succeeded, with no listed fault in place and an empty store; a revert that works, a check that works and a store that works mean exit 0 |
| PacketJournal.Host.InjectOne | cmd/chaos-controller/packetcmd.go:181-216 | journal, inject, revert, check, un-journal, in that order, is what exit 0 means; with a crash anywhere in between no fault is unlisted |
| PacketJournal.Host.Leftovers | cmd/chaos-controller/packetcmd.go:171-181 | leftovers are reverted before a new fault is planned; exit 2 exactly when the plan is refused, with no listed fault in place |
| PacketJournal.Host.RunPacketChaos | cmd/chaos-controller/packetcmd.go:147-217 | whatever fails and wherever it crashes every fault in place is listed, except those of file entries a move lost, which are none when the ids are claimable; exit 0 of a real run means the whole sequence of calls was made and no other fault is in place, the file is empty and no row is open; exit 2 of a real run exactly when the plan was refused; a run in which nothing fails exits 0; a usage error or dry run touches nothing |
| PacketJournal.Host.Life | cmd/chaos-controller/journal.go:186-232 | a host's life of runs on the file, then, if none of the file's ids is in use, on the Well, other hosts writing to the Well throughout: no fault is ever in place that no journal lists |
| Mailer.PageLaw | cmd/alert-mailer/mailer.go:176-236 | what a page notification does, told from its alerts and the earlier state: silent if nothing is new to anyone; only recorded if every firing name is reported and no reminder is due; otherwise mailed if cap and sender let it, as the all-clear (naming what was reported) exactly when nothing fires, as burning exactly when a name is new, with the error budget exactly when an SLO fires, else as a reminder, with the firing and the resolved alerts in order; reported names and mail time change exactly when it went and was saved |
| Mailer.TickLaw | cmd/alert-mailer/mailer.go:260-313 | what a tick does, told likewise: nothing before the hour or after the day's digest; no mail without news; otherwise a digest with the open tickets, the resolutions and the held count, which are cleared exactly when it went and was saved, kept when capped, and due again when failed |
| Mailer.SelectJoins | cmd/alert-mailer/mailer.go:344-353 | the firing and the resolved alerts are picked one by one, in order |
| Mailer.LogsTellAll | cmd/alert-mailer/mailer.go:138-174 | in every run the mails are what the log says went out, dry-run sends nothing and only sending fails; with successful saves the day's held counter is the number of mails held back that day |
| Mailer.KeysTell | cmd/alert-mailer/mailer.go:243-246 | alerts share a ticket exactly when their fingerprints agree, or without fingerprints their labels, as long as no slash is in the SLO or the tier |
| Mailer.KeysClash | cmd/alert-mailer/mailer.go:243-246 | with one, two different alerts share a ticket |
| Mailer.StepMails | cmd/alert-mailer/mailer.go:149-174 | an operation appends at most one mail, and a digest exactly when the hour has come, none is noted for the day, some ticket, resolution or held mail is to be told, the cap leaves room and the send succeeds |
| Mailer.CapEveryRun | cmd/alert-mailer/mailer.go:119-174 | in every run, with any sends and saves failing, each day has at most MaxPerDay mails, numbered 1, 2, ..., and the file never counts too many, as long as no restart loses a count |
| Mailer.SavedRestartsCounted | cmd/alert-mailer/mailer.go:95-136 | with successful saves no restart loses a count |
| Mailer.RestartKeepsCap | cmd/alert-mailer/mailer.go:95-174 | after a restart the cap holds in every continuation if and only if the state file counts every mail of the day |
| Mailer.CapBroken | cmd/alert-mailer/mailer.go:95-174 | a run from an empty state with one failed save and a restart that sends MaxPerDay + 1 mails in a day |
| Mailer.DailyLimits | cmd/alert-mailer/mailer.go:83-313 | every run from an empty state in which no restart loses a count or a digest and every delivered digest is noted, whatever else fails: at most MaxPerDay mails and at most one delivered digest per local day |
| Mailer.SavedDailyLimits | cmd/alert-mailer/mailer.go:83-313 | the same for every run whose saves succeed, restarts and failed sends included |
| Mailer.DigestEveryRun | cmd/alert-mailer/mailer.go:260-313 | at most one digest a day in every run, with any sends and saves failing, as long as no delivered digest goes unnoted while there is room for another and no restart loses one |
| Mailer.DigestOnce | cmd/alert-mailer/mailer.go:260-313 | a delivered digest stays the only one of its day in every continuation, restarts included, if and only if its first save succeeded and either the second did too or the digest was the last mail the cap allowed |
| Mailer.DigestOnceWhileUp | cmd/alert-mailer/mailer.go:260-313 | in every continuation without a restart, if and only if its first save succeeded or it was the last mail the cap allowed |
| Mailer.DigestTwice | cmd/alert-mailer/mailer.go:260-313 | runs from an empty state with two digests on one day: a ticket, a digest whose save fails, and the next tick, with a restart in between or without |
| Mailer.AllTickets | cmd/alert-mailer/mailer.go:239-258 | after any alerts a ticket is open exactly when the last alert with its key was firing, and the resolutions are those that met an open ticket, in order |
| Mailer.NothingLost | cmd/alert-mailer/mailer.go:138-313 | in every run with successful saves: capped mails are the held counts delivered digests reported plus the pending one, resolutions told followed by pending ones are all resolutions in order, open tickets are as their last alerts say, and the outbox is the last fifty records |
| Mailer.PagesAlone | cmd/alert-mailer/mailer.go:180-236 | with no capped or failed page the page mails are those of a three-field machine that knows nothing of digests, tickets, days or restarts |
| Mailer.IncidentMails | cmd/alert-mailer/mailer.go:176-236 | an incident from quiet to all-clear is two mails, plus one per notification that gained a name, plus reminders that fit Reminder apart into the time it burned |
| Mailer.ShrinkingNeverGains | cmd/alert-mailer/mailer.go:198-207 | no gains if and only if the firing set never grows from one notification to the next |
| Mailer.TwoMails | cmd/alert-mailer/mailer.go:176-236 | an incident that gains no name and burns for less than Reminder is exactly two mails |
| Mailer.Split | cmd/alert-mailer/mailer.go:344-353 | the firing and the resolved alerts in order, every alert in exactly one list |
| Mailer.NamesOf | cmd/alert-mailer/mailer.go:363-374 | the set of names of the alerts |
| Mailer.Mailer.constructor | cmd/alert-mailer/mailer.go:95-115 | a restart starts from the state file |
| Mailer.Mailer.RollDay | cmd/alert-mailer/mailer.go:119-124 | a new day resets the day's two counters and nothing else |
| Mailer.Mailer.Save | cmd/alert-mailer/mailer.go:126-136 | the file is the state in memory, or on failure what it was |
| Mailer.Mailer.Record | cmd/alert-mailer/mailer.go:138-144 | appends to the outbox and keeps the last fifty |
| Mailer.Mailer.Deliver | cmd/alert-mailer/mailer.go:146-174 | the delivery that the run theorems are about: capped exactly at the cap, dry-run, sent or failed by mode and sender; no error exactly when it did not fail and was saved |
| Mailer.Mailer.Page | cmd/alert-mailer/mailer.go:180-236 | the page step of the run theorems, and what PageLaw says of it; success means the new state is on disk, an error that a send or a save failed |
| Mailer.Mailer.Announce | cmd/alert-mailer/mailer.go:230-235 | notes what a page said once it went; success means the new state is on disk |
| Mailer.Mailer.Ticket | cmd/alert-mailer/mailer.go:239-258 | the ticket step of the run theorems |
| Mailer.Mailer.Tick | cmd/alert-mailer/mailer.go:262-313 | the digest step of the run theorems, and what TickLaw says of it; success and error as for a page |
| Mailer.Mailer.Status | cmd/alert-mailer/mailer.go:327-337 | reports the numbers of mails and of held mails of the sampled day |
| DriftSink.StepKeeps | cmd/heimdall-daemon/drift.go:150-229 | every step of every interleaving keeps: arrivals are what left, is in flight and is queued, in order; the counters count it; and no wake-up is lost |
| DriftSink.EveryRun | cmd/heimdall-daemon/drift.go:150-229 | the same at every point of every run from an empty sink |
| DriftSink.RunTally | cmd/heimdall-daemon/drift.go:150-229 | in every run of every interleaving the queue length, the counters and the publisher are those of a five-number tally of the steps: an append drops one record exactly when it meets a full queue |
| DriftSink.InternalRunsEnd | cmd/heimdall-daemon/drift.go:201-229 | without new arrivals the sink comes to rest after a bounded number of steps |
| DriftSink.QuietMeansDrained | cmd/heimdall-daemon/drift.go:201-229 | at rest with a live publisher nothing is queued or in flight |
| DriftSink.Sink.AppendLocked | cmd/heimdall-daemon/drift.go:168-175 | with room the record is added and nothing dropped, otherwise the oldest goes and is counted; keeps the invariant |
| DriftSink.Sink.SignalWake | cmd/heimdall-daemon/drift.go:176-180 | leaves exactly one wake token; keeps the invariant |
| DriftSink.Sink.Enqueue | cmd/heimdall-daemon/drift.go:166-180 | with room the record is added and nothing dropped, otherwise it takes the place of the oldest, which is counted; a token is pending |
| DriftSink.Sink.Len | cmd/heimdall-daemon/drift.go:183-187 | the queue's length, at most its size |
| DriftSink.Sink.Next | cmd/heimdall-daemon/drift.go:189-198 | takes the oldest record into flight, or finds none |
| DriftSink.Sink.Finish | cmd/heimdall-daemon/drift.go:201-229 | counts the record in flight as published or failed; keeps the invariant |
| Triggers.WindowBound | cmd/heimdall-daemon/bpf.go:131-149 | grants in any window are at most burst plus rate times its length, for every horn trace |
| Triggers.PolicyWindow | cmd/heimdall-daemon/bpf.go:196-219 | re-verifies in any window of t seconds are at most 3 + t |
| Triggers.PolicyRefusals | cmd/heimdall-daemon/bpf.go:196-219 | a refusal implies a grant less than a second before |
| Triggers.GrantsAtOnce | cmd/heimdall-daemon/bpf.go:131-149 | of any number of horns at one instant exactly the first ones are granted, as many as there are whole tokens in the refilled bucket |
| Triggers.SpendsAtOnce | cmd/heimdall-daemon/bpf.go:131-149 | and each costs one token |
| Triggers.ThreeAtOnce | cmd/heimdall-daemon/bpf.go:196-219 | so of four horns at once on a new policy three are granted |
| Triggers.DecisionsClassify | cmd/heimdall-daemon/bpf.go:196-219 | in every trace a horn is answered as another cluster's or as bootstrap exactly when it is that |
| Triggers.CountersCount | cmd/heimdall-daemon/bpf.go:200-226 | each counter counts its own decision |
| Triggers.OthersInvisible | cmd/heimdall-daemon/bpf.go:200-219 | deleting other clusters' and bootstrap horns changes no remaining decision |
| Triggers.CountersSum | cmd/heimdall-daemon/bpf.go:200-226 | the four counters sum to the calls, and two of them to this cluster's reverify horns |
| Triggers.TokenBucket.Allow | cmd/heimdall-daemon/bpf.go:131-149 | the bucket step of the window theorems |
| Triggers.HornPolicy.Decide | cmd/heimdall-daemon/bpf.go:198-219 | the decision of the trace theorems, and its counter |
| Heimdall.ScanReports | cmd/heimdall-daemon/main.go:171-213 | a full scan alerts exactly the files that are missing or differ from the manifest, in order; a scan for changes exactly those of them whose hash is not the one last seen |
| Heimdall.IterationReports | cmd/heimdall-daemon/main.go:229-342 | polls and horns report that for the manifest just loaded, file events for the manifest in force |
| Heimdall.AlertsTrue | cmd/heimdall-daemon/main.go:171-342 | in every run every alert is for a file of the loaded manifest, with a hash a scan found for it that is none or another than the manifest has |
| Heimdall.NoiseIsSilent | cmd/heimdall-daemon/main.go:184-213 | events that leave every file as last seen raise no alert |
| Heimdall.EventScansNeverHideDrift | cmd/heimdall-daemon/main.go:171-342 | over every mix of polls, horns and file events and every sequence of reloads from a set of manifests, every watched file whose last hash differs from the loaded manifest was alerted with that hash under that manifest, if and only if in each of them entries for one path agree on its hash |
| Heimdall.DistinctIsConsistent | cmd/heimdall-daemon/main.go:184-213 | distinct paths are enough for that |
| Heimdall.DisagreementHides | cmd/heimdall-daemon/main.go:184-213 | a manifest whose entries for one path disagree has a run that hides drift: the file is as the earlier entry has it |
| Heimdall.ContradictionIsSilent | cmd/heimdall-daemon/main.go:184-213 | with two entries for one file that is as the first has it, a scan for changes raises no alert at all |
| Heimdall.Daemon.constructor | cmd/heimdall-daemon/main.go:271-291 | starts idle, with 250 ms of debounce by default |
| Heimdall.Daemon.Scan | cmd/heimdall-daemon/main.go:171-213 | the scan of the run theorem, cache and alerts: the report of the files found |
| Heimdall.Daemon.CheckFile | cmd/heimdall-daemon/main.go:184-213 | one file of that scan: an alert exactly when it is missing or differs and, in a scan for changes, was not last seen so |
| Heimdall.Daemon.Verified | cmd/heimdall-daemon/main.go:229-303 | reload and full scan, or stop with nothing changed when the manifest is no longer trusted |
| Heimdall.Daemon.OnHorn | cmd/heimdall-daemon/main.go:303-326 | reloads and scans exactly on a granted horn |
| Heimdall.Daemon.OnFileEvent | cmd/heimdall-daemon/main.go:327-333 | a timer is live exactly while a scan is pending, at a deadline within the delay of every unscanned event |
| Heimdall.Daemon.OnTimer | cmd/heimdall-daemon/main.go:334-341 | scans exactly when due, with nothing left unscanned; otherwise waits for the same deadline |
| RateLimit.ForgettingIsInvisible | cmd/kanban-app/middleware.go:104-187 | a limiter that cleans up at arbitrary moments answers every request of every run as one that never does, if and only if the idle time refills the burst |
| RateLimit.TenMinutesCover | cmd/kanban-app/middleware.go:132-187 | ten minutes of refill covering the burst is that condition, for every rate below one per nanosecond |
| RateLimit.ShortRefillShows | cmd/kanban-app/middleware.go:104-187 | a run that shows the difference, for every other setting |
| RateLimit.WindowBound | cmd/kanban-app/middleware.go:104-156 | in any window a client is admitted at most burst plus the truncated refill of its length |
| RateLimit.BoundNeedsRefill | cmd/kanban-app/middleware.go:104-187 | that bound holds in every run if and only if the idle time refills the burst |
| RateLimit.AdmitsAtOnce | cmd/kanban-app/middleware.go:104-156 | of any number of requests of a client at one instant exactly the first ones are admitted: the burst for a new client, else its tokens plus the whole tokens earned since the last refill, up to the burst |
| RateLimit.SpendsAtOnce | cmd/kanban-app/middleware.go:132-156 | and what is not spent stays |
| RateLimit.RefillComes | cmd/kanban-app/middleware.go:132-156 | a client without tokens is denied until a token's worth of time has gone by since its last refill and admitted then, however often it asked meanwhile |
| RateLimit.DenialsAreEarned | cmd/kanban-app/middleware.go:104-187 | in every run, cleanups included, a denied client made an earlier request less than a token's worth of time before |
| RateLimit.ClientsApart | cmd/kanban-app/middleware.go:104-187 | in every run a client is answered as if it were alone |
| RateLimit.NoAddress | cmd/kanban-app/middleware.go:104-110 | a request without an address is denied and changes nothing |
| RateLimit.AdmitSettles | cmd/kanban-app/middleware.go:104-156 | between calls a bucket holds at most burst minus one tokens |
| RateLimit.RefillPaid | cmd/kanban-app/middleware.go:132-156 | a truncated refill is paid for by the time since the last one |
| RateLimit.FullAfterIdle | cmd/kanban-app/middleware.go:132-187 | a bucket idle long enough answers as a new one |
| RateLimit.ClientBucket.Take | cmd/kanban-app/middleware.go:132-156 | the bucket step of the run theorems; it admits exactly with a token left or one earned |
| RateLimit.RateLimiter.Allow | cmd/kanban-app/middleware.go:104-129 | the request step of the run theorems; it admits exactly on credit |
| RateLimit.RateLimiter.Cleanup | cmd/kanban-app/middleware.go:173-187 | removes exactly the clients idle for longer than ten minutes |
| Restarter.OutageBudget | cmd/akira/restart.go:49-90 | in every run, every outage of a service (from the start or a recovery) with k alerts, among any others, causes min(k, MaxAutoRestarts) restarts and one escalation if there are more |
| Restarter.OutageNotice | cmd/akira/restart.go:49-90 | in every run, every outage of a service that is not to be restarted costs one notice |
| Restarter.OutageOrder | cmd/akira/restart.go:49-90 | in every run, which alert of an outage does what: the first MaxAutoRestarts restart, the next one escalates, the rest are silent; without a restart the first one calls a human and the rest are silent |
| Restarter.OnlyOwnUnits | cmd/akira/restart.go:49-90 | only units of the table are restarted, exactly the names outside it are refused, with their time, and a recovery says nothing |
| Restarter.OutageStartsAfresh | cmd/akira/main.go:325-352 | in every run an outage starts with no attempts on record |
| Restarter.RefusalLogBounded | cmd/akira/restart.go:93-109 | in every run any span shorter than an hour has at most 64 refusal lines and no name twice, and the table never exceeds 64 names |
| Restarter.SilenceJustified | cmd/akira/restart.go:93-109 | in every run a refusal is silent if and only if its name was logged within the hour or 64 names were |
| Restarter.RestartUnits | cmd/akira/restart.go:39-47 | the table holds exactly this node's targets that are not exec, each with its own unit |
| Restarter.Daemon.Purge | cmd/akira/restart.go:95-99 | deletes exactly the names that went quiet |
| Restarter.Daemon.Refuse | cmd/akira/restart.go:93-109 | the refusal step of the run theorems |
| Restarter.Daemon.OnAlert | cmd/akira/restart.go:49-90 | the alert step of the run theorems |
| Restarter.Daemon.OnRecovered | cmd/akira/main.go:343-345 | the recovery step of the run theorems |
| Crc16.ComputeCrc | scripts/stress-cannon.py:49-57 | the nested loop computes the CRC function |
| Crc16.CrcRefines | scripts/stress-cannon.py:49-57 | the CRC of any bytes is the bit-serial remainder by x^16 + x^12 + x^5 + 1 of their bits |
| Crc16.FrameChecks | scripts/stress-cannon.py:49-85 | the CRC over a body and two more bytes is zero if and only if they are its big-endian CRC |
| Crc16.BurstDetected | scripts/stress-cannon.py:49-57 | data of any length differing only inside sixteen consecutive bits never share a CRC |
| Crc16.AdjacentBytesDetected | scripts/stress-cannon.py:49-57 | nor do bodies differing only inside two adjacent bytes |
| Crc16.OddErrorsDetected | scripts/stress-cannon.py:49-57 | nor data differing in an odd number of bits |
| Crc16.BuildRegister | scripts/stress-cannon.py:60-85 | twenty octets, refused exactly when a service number is not an octet |
| Crc16.RegisterReads | scripts/stress-cannon.py:60-85 | read in the layout the receiver declares, a built register has the services, hop count and sequence asked for, each in the width of its field, the flags without CUSTOM, the constants, and the checksum of its body exactly when it was not spoiled |
| Crc16.RegisterChecks | scripts/stress-cannon.py:60-85 | a built register passes the receiver's check if and only if it was not spoiled on purpose |
| Crc16.DamageNoticed | scripts/stress-cannon.py:49-85 | a good register damaged by a burst or an odd number of flips fails the check |
| Resign.AncestorsFirst | scripts/resign-unpushed.py:35-42 | the listing puts every parent in range before its child |
| Resign.HeadIsLast | scripts/resign-unpushed.py:35-42 | the head is the last commit listed |
| Resign.ReferencesFollow | scripts/resign-unpushed.py:45-59 | a whole word of eight hex digits that abbreviates a commit rewritten before becomes, in its place, the abbreviation of that commit's twin (the first one's, if it abbreviates several) |
| Resign.OtherWordsStay | scripts/resign-unpushed.py:45-59 | any other word stays as it is |
| Resign.RewrittenElse | scripts/resign-unpushed.py:45-59 | and so does everything between words |
| Resign.PathsPreserved | scripts/resign-unpushed.py:44-70 | every parent path from a rewritten commit ends where the same path from the old one does, mapped |
| Resign.EndsAlike | scripts/resign-unpushed.py:44-70 | inside the range that is a commit with the same tree, author and dates, outside it the untouched commit |
| Resign.TwinsExtend | scripts/resign-unpushed.py:44-70 | recreating the next commit keeps every earlier one a twin of its original |
| Resign.Repo.Recreate | scripts/resign-unpushed.py:44-70 | the loop maps exactly the listed commits to twins whose messages are the originals' with references to earlier ones replaced; it stops exactly when a commit cannot be signed |
| Resign.Repo.UpdateRefs | scripts/resign-unpushed.py:72-74 | the backup is written first; the branch moves exactly if it still is the old head and the script lives |
| Resign.Repo.Run | scripts/resign-unpushed.py:35-74 | done exactly when merges are allowed or absent, something is listed, all is signed and the branch still is the old head; the backup is set to the old head before the branch can move, and it moves to a head with the same history |
| Splice.FindingsMarkers | cmd/compliance-evidence/findings.go:24-28 | the real markers are of the kind the laws need |
| Splice.CountOne | cmd/compliance-evidence/findings.go:92-96 | counting one marker means there is one occurrence, overlapping ones included |
| Splice.AssembledOnce | cmd/compliance-evidence/findings.go:97-105 | no marker forms across a seam |
| Splice.ReplaceAccepts | cmd/compliance-evidence/findings.go:92-105 | accepted if and only if each marker occurs once, in order, and the new text has neither |
| Splice.ReplaceBetween | cmd/compliance-evidence/findings.go:92-105 | the text up to the first marker and from the second on is kept, refusals included |
| Splice.ReplaceKeepsShape | cmd/compliance-evidence/findings.go:92-105 | the result again has one marker of each kind with exactly the new text between |
| Splice.ReplaceTwice | cmd/compliance-evidence/findings.go:92-105 | replacing twice is replacing once with the last text |
| Splice.RegenerateTwice | cmd/compliance-evidence/findings.go:92-105 | so for the findings section |
| Textfile.SplitLabels | cmd/huginn/textfile.go:124-147 | the character loop with its quote and escape flags computes the split |
| Textfile.SplitConserves | cmd/huginn/textfile.go:124-147 | the pieces joined by commas are the block, but for a last piece of blanks, which is dropped |
| Textfile.SplitJoin | cmd/huginn/textfile.go:124-147 | splitting the comma-join of any well-formed labels gives them back |
| Textfile.ParseIsPattern | cmd/huginn/textfile.go:37-41 | the left-to-right scan accepts exactly what the sample pattern denotes and reads off its groups |
| Textfile.NumberIsPattern | cmd/huginn/textfile.go:38 | the value scan accepts exactly the numbers of the pattern: a mantissa and an optional exponent |
| Textfile.MantissaIsPattern | cmd/huginn/textfile.go:38 | a mantissa being digits, an optional point, and digits |
| Textfile.LabelIsPattern | cmd/huginn/textfile.go:40 | the label scan accepts exactly what the label pattern denotes |
| Textfile.CommentIsPattern | cmd/huginn/textfile.go:39 | the comment scan exactly what the comment pattern denotes |
| Textfile.TrimMeans | cmd/huginn/textfile.go:107 | trimming cuts off blanks only, and all of them |
| Textfile.CheckLabels | cmd/huginn/textfile.go:105-116 | accepts exactly blocks of well-formed labels, and keeps the host only when none of them is a host label |
| Textfile.TextfileLine | cmd/huginn/textfile.go:95-121 | the line the filter's laws are about |
| Textfile.HostLabelGood | cmd/huginn/textfile.go:117-119 | the quoted host label is well formed for every host |
| Textfile.UnquoteHost | cmd/huginn/textfile.go:117-119 | reading the quoted host back gives the host, for every host |
| Textfile.SampleKept | cmd/huginn/textfile.go:95-121 | an accepted sample keeps its name, its value and its labels in order; a label host with the host as its value comes first exactly when a host was given and no label is named host; read again it says just that |
| Textfile.Idempotent | cmd/huginn/textfile.go:95-121 | an accepted line fed back in is unchanged, unless a host with a brace in its name was added, and then it is dropped |

## Left out

- Mailer.NamesOf: names are a set here; the source keeps them sorted and without repeats, which only the subject line shows.
- Mailer.Mailer.Tick: the digest holds the open tickets as a map; their order and the rendered text of all mails are not modelled.
- Mailer.Mailer.constructor: an unreadable state file and a missing SMTP sender, which refuse to start, are not modelled.
- PacketJournal.Host.OpenRows: rows of the same instant come in any order; the source orders them by row number.
- PacketJournal.Host.RunPacketChaos: asks of a host on the file that it has nothing open in the Well; the waiting loop, its abort file and signals change no state and are one arbitrary wait.
- A crash between an SMTP send and the mailer's save; restarts happen between operations.
- Two packet-chaos processes on one state directory, and a host that goes back from the Well to the file.
- The window between the rate limiter's lookup and its take while cleanup runs; Allow is one step with one clock sample, in exact integers instead of floats.
- Heimdall's alert buffer between scan and drift sink, the publisher's retries and signatures, NormalizeNodeID and the BPF record decoders.
- Negative debounce delays.
- Resign.Repo.Run: shallow repositories and the newline that git show adds to a message; which characters make up a word is a parameter.
- Textfile.HostLabelGood: the quoting of unprintable non-ASCII characters in host names is not modelled, nor is invalid UTF-8.
- Rendering of the findings themselves; HTTP servers, SMTP, gRPC, systemctl and git processes, flags, logging and metrics.
- Time zones: the local day is any day that never goes back, and the digest hour a minute of it.
- The crypto-inventory scanners, lint ratchet, runbook checks, alert-policy rendering and the other commands would add only parsing or easy set facts.
