# Pancy: a verified model

A Dafny 4.11 model of the Pancy key-value service, of the client protocol and the checker that judge it, of the
simulated network between them, and of the tracker's state and wire form. `dafny verify dfyconfig.toml` checks it all.

## What is modelled

**The lock-sequence protocol** (`Lockseq`, `LockseqClient`, `Replica`, `Netsim`, `LockseqNet`, `LockseqTimed`). Any
number of clients up to 4096 loop through lock, write, clear and unlock. A state holds the leader's database, each
client's variables, and one lossy FIFO queue in each direction for every client and replica. A run is any sequence of
steps: a client begins a round, sends (the message is kept or lost), a replica serves the head of any queue (the reply
is kept or lost), a client receives from any queue, a client times out. One fixed leader applies requests; every other
replica redirects. The client is a class that works on text, as the coroutine does, and whose methods are proved to make
exactly the transitions of the system; the replica is a class around the database. `Netsim` has the clock and shows why
the channels are such queues: a positive send delay and a constant link delay keep the messages of one source in order.
`LockseqNet` proves that the timed port refines the queues of the system: a send is `Put`, a receive is `Pop`, and a
delivery changes nothing. `LockseqTimed` puts all clients, replicas and ports under one clock and proves that every
timed run is simulated by a run of the transition system, so that all that holds of those runs holds of it; and that
with any delays there is a timed run in which a request is sent, served and answered.

The inductive invariant (`LockseqInv`) says what every request still on its way can be: a *dead* unlock, whose version
is gone for good, a lock request of the current loop, or a request of this very round, sent while the lock is held, that
is harmless when served again. It is proved for each kind of step (`LockseqServe`, `LockseqSteps`) and so for every
run; `LockseqSafety` draws the consequences, and `LockseqRounds` says field by field what each step of a run does. Keys and values are typed in the protocol. `LockseqText` prints them and
`DbRename` proves that a database cannot tell: it compares keys and values for equality only, so a string-keyed database
that serves the printed requests holds the printed contents. `LockseqCheck` puts both together: the method `Check`
accepts the leader's database after every run. `LockseqRetry` has one run in full: it shows why a client whose retried
remove finds nothing must go on.

**The database** (`DbSpec`, `DbDiff`, `DbDiffAny`, `PancyDb`). A class with the fields of `pancydb`, whose requests go
through pointers that may lead to the one shared nonexistent entry. A ghost log of mutations is the specification:
versions are positions in the log, entries are last mutations, the bounded list holds the newest erasures. `diff` is the
loop over two sorted key sequences; its meaning is given by a predicate on single keys, and what that says about two
databases is proved from their logs: `DbDiff` where one lags the other, `DbDiffAny` for any two. The databases that have
a log are exactly those that requests can produce.

**The checker** (`LockKeys`, `LockGrammar`, `LockCheck`). `check` is the loop over the sorted entries; `Grammar` says
independently what a database of locked and unlocked groups is.

**The tracker** (`Tracker`, `Bencode`, `Ipv4`). Announces folded into nested maps; a response, read by a general
decoder for the bencoding of BEP 3; the IPv4 parser and printer.

`Lex` is the order in which `std::map<std::string, _>` iterates, `Decimal` the printing and parsing of numbers, `Base`
holds what all share.

## Where code and comments differ

- `pset4/lockseq_model.cc:87-90`: the comment says that a client must not wait for itself, the code throws when
  *another* client holds the lock. The model has both: with `wait` false a client that finds another holder halts, as
  the code does; with `wait` true it retries. Everything holds for both, and `LockseqSafety.FailedCasNamesAnother`
  shows that with the code's rule no failed compare-and-swap is ever retried.
- `pset4/pancydb.cc:9`: the null test never succeeds, since a lookup of an absent key points at the nonexistent entry.
  A get of an absent key therefore answers `ok` with version 0.
- `pset4/pancydb.cc:85-87`: at skew 0 the databases "must exactly equal". `diff` compares keys, values and versions, not
  the version counters or the removal lists (`DbDiff.ZeroSkewIsEquality`).
- `pset4/pancydb.cc:83-89` promises that nothing is returned only for databases that are equivalent to within the skew.
  A lag within the skew is always accepted, but much else can be too. Exactly what is accepted, key by key and for any
  two databases that requests can produce, is `DbDiffAny.AnyKeyExact`, a condition on the two histories alone; of the
  whole comparison it is `DbDiffAny.AnyExact` and of the method `PancyDb.DiffAny`. Where one history extends the
  other, `DbDiff.LaggingKeyExact` says it shorter: a lag within the skew, or the older database has the key as it
  was where the window begins, or the key was stored inside the window, or the key is missing from the newer database
  and its removal list neither names it nor reaches past the window. Three inputs that are accepted against the promise,
  all made by requests: `DbDiff.StoringHidesLag` (a key stored twice, skew 1, an empty database; nothing was ever
  removed), `DbDiff.EvictionHidesLag` (a removal that has been evicted) and `DbDiffAny.DivergedIsAccepted` (two
  databases one mutation apart, at skew 2, of which neither was ever on the other's way).
- `pset4/lockseq_model.cc:203-223`: the overflow test of `parse_digits` is not exact. Digits are accepted as the number
  they denote if and only if it is below the error value 4294967295 (`Decimal.ParseDigitsExact`); 4294967295 itself
  is refused, since it is that value, and 6000000000 is neither refused nor read correctly
  (`Decimal.ParseDigitsMissesOverflow`).
- `pset4/lockseq_model.cc:235-242`: the code asks of a lock's value only that it has four characters and begins with
  `c`, and treats a lock with an empty value as no lock. In a locked group the values may change with or without a gap.
  `Grammar` follows the code.

## Model

| member | source | states |
|---|---|---|
| LockseqCheck.EveryDatabasePassesCheck | pset4/lockseq_model.cc:41-194 | after every run, for any number of clients and any losses, duplicates, redirections, timeouts and halts, the entries of the leader's string-keyed database are sorted and satisfy the grammar, so `Check` accepts them |
| LockseqCheck.CheckAfter | pset4/lockseq_model.cc:225-328 | the checker's loop itself returns nothing on the entries that any run leaves at the leader |
| LockseqCheck.TextPasses | pset4/lockseq_model.cc:226-242 | a database in which every lock's owner is as far as its slots show, and every free group is one block, prints as a well-formed map |
| LockseqCheck.GroupPasses | pset4/lockseq_model.cc:231-242 | the same, group by group: any map that holds the text of a group passes the grammar for it |
| LockseqSteps.Always | pset4/lockseq_model.cc:41-194 | the inductive invariant holds after every run |
| LockseqSteps.StepKeeps | pset4/lockseq_model.cc:60-190 | every enabled step keeps the invariant |
| LockseqSteps.MessageKeeps | pset4/client_model.hh:103-125 | whatever message a client takes, stale, redirecting or answering, it keeps its lock and its invariant |
| LockseqServe.ServeOwn | pset4/pt-paxos.cc:117-118 | serving the oldest request of a client changes slots only while that client holds the lock, takes only a free lock, and leaves every other request in the queue legitimate |
| LockseqSafety.HolderHasLock | pset4/lockseq_model.cc:60-161 | a client that writes or clears holds its lock, and while it holds it the lock's entry is its value at its `lock_version` |
| LockseqSafety.MutualExclusion | pset4/lockseq_model.cc:60-93 | two clients never hold the same group |
| LockseqSafety.HeldGroupIsPrivate | pset4/lockseq_model.cc:95-161 | while a group is held, no step but serving the holder's own request changes any key of it |
| LockseqSafety.HeldUntilUnlock | pset4/lockseq_model.cc:163-190 | a client holds its group, with the same value, until the leader serves the unlock of this very round |
| LockseqSafety.UnlockIsOwn | pset4/lockseq_model.cc:168-190 | an unlock, however late or often it is served, is dead, or it is the holder's own of this round and leaves exactly the slots 0 to `nvalues` - 1, all with its value |
| LockseqSafety.LockLeavesByUnlock | pset4/pancydb.cc:64-74 | a lock entry changes or leaves only when the leader serves the unlock that its holder sent |
| LockseqSafety.DeadForever | pset4/pancydb.hh:97-104 | an unlock that is dead at some point is dead after every longer run: versions are not reused |
| LockseqSafety.NoUnexpectedThrow | pset4/lockseq_model.cc:79-188 | no run reaches a throw for an unexpected code of a compare-and-swap, put, remove or first-try unlock |
| LockseqSafety.FailedCasNamesAnother | pset4/lockseq_model.cc:78-90 | a failed compare-and-swap is a mismatch that names the client itself exactly when an earlier try took the lock; then, and on success, the client continues with the version that the lock has; otherwise the code halts |
| LockseqSafety.ClearStopsAtTheEnd | pset4/lockseq_model.cc:141-157 | after an answer to a remove the slot is empty; a first-try miss means that nothing lies beyond; when clearing ends, exactly the client's own slots remain |
| LockseqRetry.RetriedMissIsNotTheEnd | pset4/lockseq_model.cc:152-157 | there is a run in which a retried remove is answered `not_found` while the next slot is still stored: the client must go on |
| LockseqSafety.UnlockAnswerMeansUnlocked | pset4/lockseq_model.cc:181-189 | any answer to an unlock means that this round's lock is gone and no lock of the client remains; on the first try it is success |
| LockseqSafety.AcceptedAnswerWasServed | pset4/client_model.hh:103-125 | an accepted answer has the awaited type and is the leader's answer to that very request, at a point after every moment at which the client had not reached its serial |
| LockseqSafety.ServedGrowsAlong | pset4/pt-paxos.cc:105-119 | what the leader has served is never revised |
| LockseqHistory.StepHistory | pset4/client_model.hh:54-59 | every step keeps: requests and served requests carry their client's serials, and every reply that is no redirection is the leader's answer to one of that client's requests |
| LockseqHistory.AnswerIsCurrent | pset4/client_model.hh:110-121 | an answer with the current serial was given to the current request |
| LockseqRounds.RoundBegins | pset4/lockseq_model.cc:51-62 | a round begins in the lock phase with the picked group, value and length, under the serial 4096 above the last, with no tries and the leader known so far; nothing else changes |
| LockseqRounds.SendsItsRequest | pset4/client_model.hh:95-101 | a send puts the request of the phase, with its key, its value and the match that the phase asks for, at the end of the queue to the client's leader, unless it is lost; no other queue changes |
| LockseqRounds.TimeoutAsksAgain | pset4/lockseq_model.cc:70-72 | after a timeout the client asks again under the same serial: the same replica, or on every third try the one picked |
| LockseqRounds.StaleIsDropped | pset4/client_model.hh:110-114 | a reply with another serial changes nothing but its queue, and the client keeps waiting |
| LockseqRounds.RedirectionIsFollowed | pset4/client_model.hh:115-118 | after a redirection with the live serial the client's leader is the replica that it names, or the one picked on every third try, and the next send puts the same request at the end of that replica's queue |
| LockseqRounds.AnswerMovesOn | pset4/lockseq_model.cc:73-189 | in every run an answer moves the round on: from the lock to the first value, from value to value, from the last value to clearing, from slot to slot until a first-try miss or slot 100, to the unlock, and to rest, each loop under its own serial; only another's lock halts the client or makes it try again |
| LockseqRounds.ReplicaAnswers | pset4/pt-paxos.cc:105-119 | a replica takes the oldest request of a channel and puts its reply on the way back unless it is lost; the leader applies the request, and every other replica changes nothing and names the leader |
| LockseqRounds.AlwaysPointed | pset4/pt-paxos.cc:109-115 | after every run each redirection on its way has code `redirect` and names the leader, and each client's idea of the leader is a replica |
| LockseqRounds.RedirectionFindsLeader | pset4/client_model.hh:115-118 | a client that takes a redirection, and picks no replica at random, has the leader, and its next request goes there |
| LockseqClient.LockseqClient.Begin | pset4/lockseq_model.cc:51-62 | a round begins with the text of a new group's lock key and of a new value, under a new serial |
| LockseqClient.LockseqClient.StartLoop | pset4/lockseq_model.cc:101-102 | a loop begins with no tries and the next serial |
| LockseqClient.LockseqClient.SendRequest | pset4/client_model.hh:95-101 | what is sent is the text of the current loop's request, to the client's idea of the leader |
| LockseqClient.LockseqClient.NoResponse | pset4/lockseq_model.cc:70-72 | one more try, with a new leader after every third |
| LockseqClient.LockseqClient.Receive | pset4/client_model.hh:103-125 | on the text of a response: the client makes the transition of the system, which drops what is stale, follows a redirection as `LockseqRounds.RedirectionIsFollowed` says, and moves on with an answer as `LockseqRounds.AnswerMovesOn` says |
| LockseqClient.LockseqClient.Locked | pset4/lockseq_model.cc:73-92 | deciding on text, with `starts_with`, makes the transition on a compare-and-swap response, for both readings of line 88 |
| LockseqClient.LockseqClient.constructor | pset4/lockseq_model.cc:41-45 | a client begins at rest with its id as serial and its prefix |
| LockseqClient.LockseqClient.WritePhase | pset4/lockseq_model.cc:98-101 | the next put, or on to clearing when all values are written |
| LockseqClient.LockseqClient.ClearPhase | pset4/lockseq_model.cc:125-129 | the next remove, or on to unlocking at the end of the range |
| LockseqClient.LockseqClient.Written | pset4/lockseq_model.cc:115-123 | the transition on a put response |
| LockseqClient.LockseqClient.Cleared | pset4/lockseq_model.cc:141-161 | the transition on a remove response, first try and later tries apart |
| LockseqText.RunRenders | pset4/pt-paxos.cc:102-120 | a string-keyed database that serves the text of the requests holds the text of what the typed one holds |
| LockseqText.RenderKeyInjective | pset4/lockseq_model.hh:53-58 | different keys have different text, whatever the numbers |
| LockseqText.RenderTagInjective | pset4/lockseq_model.cc:44-56 | different values have different text |
| LockseqText.PrefixIsOwner | pset4/lockseq_model.cc:87-90 | a value is `c{N}`, a space and what was picked, and starts with `c{N}` and a space exactly when client N wrote it; no client id is a prefix of another |
| LockseqText.SameTests | pset4/lockseq_model.cc:82-90 | the two tests that a client makes of a value have the same outcome on text |
| LockseqText.AnswersRender | pset4/pt-paxos.cc:117-118 | the string-keyed database answers a request's text with the text of the typed answer |
| DbRename.ProcessRenamed | pset4/pancydb.cc:31-74 | under injective renamings of keys and values, serving the renamed request gives the renamed response and database |
| DbRename.RunRenamed | pset4/pancydb.cc:76-80 | the same for every sequence of requests |
| Replica.PtPaxosReplica.constructor | pset4/pt-paxos.cc:72-85 | a replica begins with an empty database |
| Replica.PtPaxosReplica.Serve | pset4/pt-paxos.cc:105-119 | the leader's database is what serving all requests so far gives, and it answers so; any other replica redirects and changes nothing |
| Replica.PtPaxosReplica.ServeText | pset4/pt-paxos.cc:105-119 | a replica that serves the text of a request answers with the text of what the same replica of the system answers, redirections included, and the leader has then served the text of what the system's leader has |
| Replica.PtPaxosReplica.CheckAfterRun | pset4/pt-paxos.cc:163-175 | a leader that has served the text of any run's requests passes the check of the test driver |
| Netsim.Port.constructor | pset4/netsim.hh:69-87 | a new port holds nothing |
| Netsim.Port.Send | pset4/netsim.hh:369-382 | a message is lost, or is the last in flight, due when the link delay has passed; the sender is busy for the send delay; everything stays in order and accounted for |
| Netsim.Port.SendAfter | pset4/netsim.hh:378-391 | the delivery is scheduled one link delay ahead, behind all others, while the sender is busy |
| Netsim.Port.Wait | pset4/netsim.hh:380-381 | the sender is busy for the send delay |
| Netsim.Port.Advance | pset4/netsim.hh:384-386 | time passes without overtaking a pending delivery |
| Netsim.Port.Deliver | pset4/netsim.hh:93-97 | any delivery that is due may happen; it joins the queue, and no channel's contents change their order |
| Netsim.Port.ReceiveFrom | pset4/netsim.hh:99-122 | the message received is the oldest that its channel holds |
| Netsim.SendHolds | pset4/netsim.hh:369-382 | a kept message is the newest of its channel, and no other channel changes |
| Netsim.DeliverHolds | pset4/netsim.hh:384-391 | delivering the first flight of a source changes nothing that any channel holds |
| Netsim.ReceiveHolds | pset4/netsim.hh:115-121 | taking the head of the port's queue takes the oldest of one channel and moves it to the end of what was received |
| Netsim.ReceivedInOrder | pset4/netsim.hh:94-122 | what was received from a source is the beginning of what it sent and was not lost, in order |
| LockseqNet.Send | pset4/netsim.hh:369-382 | sending on a timed port is `Put` on the channel's queue in the transition system, kept or lost |
| LockseqNet.Deliver | pset4/netsim.hh:93-97 | a delivery leaves every queue of the transition system as it is |
| LockseqNet.Receive | pset4/netsim.hh:99-122 | receiving takes the head of its channel's queue and is `Pop` |
| LockseqNet.SendIsPut | pset4/netsim.hh:369-391 | a kept message is at the end of its channel's queue and no other queue changes |
| LockseqNet.ReceiveIsPop | pset4/netsim.hh:115-121 | the head of the port is the head of its channel's queue, and taking it is `Pop` |
| LockseqTimed.TimedRunIsRun | pset4/netsim.hh:93-122 | for every timed run of all clients, replicas and ports there is a run of the transition system that ends with the same database, clients and served requests, and with the contents of every channel in its queues |
| LockseqTimed.StepSimulates | pset4/netsim.hh:369-391 | every timed step is one step of the transition system or none |
| LockseqTimed.TimedPassesCheck | pset4/pt-paxos.cc:133-176 | whatever the timed system has done, the entries of its leader satisfy the grammar of `check` |
| LockseqTimed.ARequestIsAnswered | pset4/netsim.hh:369-391 | for any link and send delay there is a timed run in which a client's lock request is sent, arrives after the link delay, is served, and is answered after another: at twice the link delay the client holds its lock at its `lock_version` |
| LockseqTimed.SentMatches | pset4/netsim.hh:369-382 | a send to one port is `Put` on one queue and leaves every port on time |
| LockseqTimed.ReceivedMatches | pset4/netsim.hh:99-122 | a receive from one port is `Pop` of the queue its head came from |
| Netsim.SentTimely | pset4/netsim.hh:369-382 | a send, kept or lost, leaves the flights in order and on time |
| Netsim.SendTimely | pset4/netsim.hh:369-382 | flights of one sender that awaits its sends are due at strictly increasing times |
| Netsim.DeliverTimely | pset4/netsim.hh:384-391 | a delivery that is due is the first flight of its source |
| DbSpec.ProcessRefines | pset4/pancydb.cc:7-80 | each request appends its one mutation to the log that the database represents, or, when it fails or only reads, changes nothing |
| DbSpec.ResponseReports | pset4/pancydb.cc:7-74 | a request succeeds exactly when its conditions hold of the entry it finds, a failed one changes nothing, and none touches another key; the response repeats the serial, reports the entry's version before and after, is `not_found` only for the remove of an absent key, and carries the value found on a mismatch and an empty one on any other code |
| DbSpec.RemovesAreNewest | pset4/pancydb.hh:97-104 | the list is a beginning of all removals, newest first: all of them, or the newest 100 |
| DbSpec.AllRunsRefine | pset4/pancydb.cc:7-80 | after any sequence of requests a fresh database is what the log of their mutations says: the counter counts them, entries are last mutations, the list is exactly the newest removals, at most 100 |
| DbSpec.EveryLogIsReached | pset4/pancydb.cc:31-80 | every log that erases only what exists is the log of a run of requests |
| DbSpec.RepresentedIsReached | pset4/pancydb.cc:31-80 | a database that has a log is the one that requests for its mutations produce |
| DbSpec.CurrentIsLast | pset4/pancydb.hh:57-66 | an entry is the last mutation of its key and its version that mutation's number; an absent key was erased after each time it was stored |
| DbSpec.VersionsAreDistinct | pset4/pancydb.cc:31-62 | stored versions are positive, below the next version, and different for different keys |
| DbSpec.RemovalsDescend | pset4/pancydb.hh:97-104 | removals are listed in descending order, each above the version it removed |
| DbSpec.RemovalsAreErasures | pset4/pancydb.hh:97-104 | a removal is listed if and only if the log erases that key at that version while it had that entry |
| DbDiff.NoFalseAlarm | pset4/pancydb.cc:83-155 | a database whose log lags by at most the skew agrees at every key, even where removals inside the window have been evicted |
| DbDiff.LaggingKeyAgrees | pset4/pancydb.cc:109-145 | the same for one key and any window that the lag fits |
| DbDiffAny.AnyKeyExact | pset4/pancydb.cc:91-145 | exactly when a key is accepted, for any two databases made by requests and any skew, from the two histories alone: the newer no longer shows the key and a hundred erasures came since the window began; or only the newer shows it and stored it last inside the window; or both show it and last stored the same, or the newer stored it later and inside the window |
| DbDiffAny.AnyExact | pset4/pancydb.cc:102-155 | the same of the whole comparison |
| DbDiffAny.AcceptedForAReason | pset4/pancydb.cc:131-141 | an accepted key was last stored by the same mutation with the same value in both histories, or inside the window by the newer, or is exempt in the newer |
| DbDiffAny.KnownIsLast | pset4/pancydb.cc:124-130 | the version that the comparison finds for a key is the last that was stored there, as long as the key is present or its last erasure is inside the window and among the newest hundred |
| DbDiffAny.CompleteIsFew | pset4/pancydb.cc:110-113 | the removal list counts as complete for the window exactly when fewer than a hundred erasures came after its first version |
| DbDiffAny.DivergedIsAccepted | pset4/pancydb.cc:131-141 | two databases made by requests, one mutation apart, that are accepted at skew 2 although no history of the newer one passes through the older |
| DbDiff.LaggingKeyExact | pset4/pancydb.cc:109-145 | where one history extends the other, for every lag and skew: within the skew always; beyond it if and only if the older one has the key as it was where the window begins, or the key was stored inside the window, or the exemption for evicted removals applies |
| DbDiff.LaggingExact | pset4/pancydb.cc:102-155 | the same of the whole comparison of a database with one that lags it |
| DbDiff.StoringHidesLag | pset4/pancydb.cc:132-141 | two databases made by requests, further apart than the skew, that are accepted although nothing was ever removed |
| DbDiff.SettledKeysMustBeEqual | pset4/pancydb.cc:109-145 | a case of `AnyKeyExact`: a key that neither log touched inside the window is accepted if and only if the entries are equal or the newer database lacks it and its list does not reach past the window |
| DbDiff.EvictionHidesLag | pset4/pancydb.cc:110-135 | two databases made by requests, further apart than the skew, that are accepted because the removal of a key the older one still holds was evicted |
| DbDiff.MonotoneInSkew | pset4/pancydb.cc:91-145 | for any two databases with logs, agreement at a skew implies agreement at every larger one |
| DbDiff.ZeroSkewIsEquality | pset4/pancydb.cc:85-145 | at skew 0 agreement is equality of the maps, and the exemption for evicted removals cannot apply |
| PancyDb.PancyDb.constructor | pset4/pancydb.hh:57-66 | a fresh database is empty, its counter is 1 and its log is empty |
| PancyDb.NonexistentVv.constructor | pset4/pancydb.cc:5 | the shared entry is empty at version 0 |
| PancyDb.PancyDb.FindVvptr | pset4/pancydb.hh:82-90 | the pointer can be followed, and reads as the entry a lookup finds; it is the shared one exactly for absent keys, and otherwise the key's own |
| PancyDb.PancyDb.Write | pset4/pancydb.cc:40-42 | a write through a pointer changes one entry, and the shared one only if it is pointed at |
| PancyDb.PancyDb.EmplaceVvptr | pset4/pancydb.hh:92-95 | an entry is inserted at the next version only where there is none |
| PancyDb.PancyDb.DoRemove | pset4/pancydb.hh:97-104 | the entry goes to the front of the list, the oldest are dropped down to 100, and the counter moves on |
| PancyDb.PancyDb.Version | pset4/pancydb.hh:107-109 | the version of a key's entry; it is 0 exactly for absent keys |
| PancyDb.PancyDb.Get | pset4/pancydb.hh:115-118 | the key's last mutation in the log, if that stored something |
| PancyDb.PancyDb.Put | pset4/pancydb.hh:120-127 | one stored mutation, whether or not the key existed; the shared entry is untouched |
| PancyDb.PancyDb.Remove | pset4/pancydb.hh:129-136 | one erasure, or nothing when the key is absent |
| PancyDb.PancyDb.ProcessGet | pset4/pancydb.cc:7-13 | value and version found, with code `ok` even for an absent key |
| PancyDb.PancyDb.ProcessPut | pset4/pancydb.cc:31-45 | new state, response and log are those of the specification; the shared entry stays empty at version 0 |
| PancyDb.PancyDb.ProcessCas | pset4/pancydb.cc:47-62 | the same for a compare-and-swap, where an empty expectation matches an absent key |
| PancyDb.PancyDb.ProcessRemove | pset4/pancydb.cc:64-74 | the same for a remove |
| PancyDb.PancyDb.ProcessReq | pset4/pancydb.cc:76-80 | the same for every request |
| PancyDb.PancyDb.NonexistentIsAbsent | pset4/pancydb.cc:35-39 | version 0 is found exactly where there is no entry |
| PancyDb.PancyDb.KeysInOrder | pset4/pancydb.hh:46-48 | iteration visits every key once, in lexicographic order |
| PancyDb.PancyDb.FindRecent | pset4/pancydb.cc:91-100 | the newest listed removal of the key inside the window |
| PancyDb.PancyDb.Differs | pset4/pancydb.cc:124-145 | the tests of one key report a difference exactly when the databases disagree at it |
| PancyDb.PancyDb.DiffOlder | pset4/pancydb.cc:107-155 | the merge visits every key of either map once and in order; it reports nothing if and only if all agree, and otherwise the least key that does not |
| PancyDb.PancyDb.Diff | pset4/pancydb.cc:102-155 | the same, for the newer database against the older whichever is asked |
| PancyDb.DiffAny | pset4/pancydb.cc:102-155 | for any two databases the method returns nothing exactly as `AnyExact` says of the newer and the older |
| PancyDb.DiffLagging | pset4/pancydb.cc:102-155 | a database that lags by at most the skew raises no alarm in either direction; beyond it the method returns nothing exactly as `LaggingExact` says |
| PancyDb.CompareHeads | pset4/pancydb.cc:115-123 | the lower head is the least key left, it heads exactly the maps that contain it, and everything below it has been visited |
| PancyDb.MergeStep | pset4/pancydb.cc:115-152 | advancing past the lower head keeps the merge sorted and without repetition |
| LockKeys.ParseUnparse | pset4/lockseq_model.cc:255-302 | what the checker reads of a key and what a key prints are inverse to one another |
| LockKeys.KeyOrder | pset4/lockseq_model.hh:53-58 | within a group the lock precedes all values, and values are in numeric order |
| LockKeys.Pad3Order | pset4/lockseq_model.hh:56-58 | below 1000, the order of padded numbers is the order of numbers |
| LockKeys.GroupsAreContiguous | pset4/lockseq_model.cc:255-274 | whatever lies between two keys of a group belongs to it |
| LockKeys.MadeKeysParse | pset4/lockseq_model.hh:50-58 | the keys that clients format are read back with their group and index |
| LockCheck.Check | pset4/lockseq_model.cc:225-328 | on sorted entries nothing is reported if and only if they satisfy the grammar; otherwise the key reported is the first whose prefix of the map breaks it |
| LockCheck.AcceptCorrect | pset4/lockseq_model.cc:226-327 | the scanner accepts sorted entries if and only if they satisfy the grammar, and then its variables describe the last group |
| LockCheck.AdvanceCorrect | pset4/lockseq_model.cc:276-325 | one more key in order is accepted exactly when the grammar still holds with it |
| LockCheck.PrefixWellFormed | pset4/lockseq_model.cc:226-242 | dropping the last of sorted entries keeps the grammar |
| LockCheck.ReadGroup | pset4/lockseq_model.cc:256-274 | the length of a key's group prefix, or nothing when it has none |
| LockCheck.ReadIndex | pset4/lockseq_model.cc:295-302 | the index of a value key, or nothing when it is none |
| LockCheck.CheckSlot | pset4/lockseq_model.cc:304-325 | the checks of a value key against what the pass expects are the scanner's |
| LockCheck.Stop | pset4/lockseq_model.cc:251-327 | the first entry that is refused is the first break of the grammar, and later entries cannot mend it |
| LockGrammar.GroupIsLocal | pset4/lockseq_model.cc:231-242 | a group's verdict depends on its own keys alone |
| Decimal.ParseDigitsIn | pset4/lockseq_model.cc:203-223 | the loop yields the 32-bit scan of the digits, and the error value for an empty range |
| Decimal.ParseDigitsExact | pset4/lockseq_model.cc:209-222 | digits are accepted, and as the number they denote, if and only if that is below the error value, the largest of 32 bits |
| Decimal.ParseOneDigitMore | pset4/lockseq_model.cc:215-219 | with one digit more than fits the value wraps and is rejected only if it fell; otherwise the scan goes on from the wrapped value, whatever follows |
| Decimal.ParseDigitsMissesOverflow | pset4/lockseq_model.cc:215-219 | a number that does not fit is accepted as a different one |
| Decimal.ScanRejects | pset4/lockseq_model.cc:211-214 | text with anything but digits is rejected |
| Decimal.ThreeDigits | pset4/lockseq_model.hh:56-58 | any three digits are the padding of the number they denote |
| Decimal.Pad3Value | pset4/lockseq_model.hh:56-58 | the padding of a number below 1000 has three digits and denotes it |
| Decimal.ValueRoundTrip | pset4/lockseq_model.hh:47-52 | printing undoes reading exactly on digits without superfluous zeros |
| Ipv4.ParseIpv4 | pset4/tracker/http.cc:46-70 | the parsed address, or nothing; never more than 32 bits |
| Ipv4.ParseDotted | pset4/tracker/http.cc:50-69 | the loop of four parts, with every slice inside the string and no bit lost by the shifts |
| Ipv4.ReadPart | pset4/tracker/http.cc:54-62 | one part up to its dot: the parse ends with it or goes on after the dot |
| Ipv4.ParseIsExact | pset4/tracker/http.cc:46-70 | accepted is exactly four dot-separated decimal numbers up to 255, read in base 256 |
| Ipv4.FormatParses | pset4/tracker/http.cc:72-78 | every 32-bit address survives printing and parsing |
| Ipv4.ParseFormats | pset4/tracker/http.cc:46-78 | parsing and printing give the text back if and only if it is an IPv4address of section 3.2.2 of RFC 3986 |
| Bencode.RoundTrip | pset4/tracker/http.cc:193-217 | a general decoder of BEP 3 reads back every value with sorted dictionaries, and leaves what follows |
| Tracker.LastAnnounceWins | pset4/tracker/state.cc:17-38 | after any sequence of announces a peer is stored with the address, port, counters and completeness that its last announce gave, and not at all if that stopped or there was none; a torrent exists once anything was announced of it |
| Tracker.StoredHasAnnounced | pset4/tracker/state.cc:17-38 | a stored peer has a last announce, and that did not stop |
| Tracker.ListedAreAnnounced | pset4/tracker/http.cc:199-213 | a body that lists stored peers lists each with the address and port of its last announce |
| Tracker.OwnAnnounceDoesNotShow | pset4/tracker/messages.cc:8-12 | the response to an announce is the same whether the announce is applied before or after it |
| Tracker.ListedFacts | pset4/tracker/http.cc:199-213 | listed are the first min(numwant, others) other peers in order, all when numwant is negative, and never the requester |
| Tracker.EncodePeer | pset4/tracker/http.cc:210-211 | the formatted text of a peer is the bencoding of its dictionary |
| Tracker.EncodeResponse | pset4/tracker/http.cc:198-215 | the text around the peers is the bencoding of interval 100 and the list of peers |
| Tracker.FormatPeer | pset4/tracker/http.cc:210-211 | the text appended for a peer is the bencoding of its dictionary |
| Tracker.ListPeers | pset4/tracker/http.cc:200-213 | the loop appends exactly the listed peers |
| Tracker.TrackerState.constructor | pset4/tracker/types.hh:48-50 | a fresh tracker knows no torrents |
| Tracker.TrackerState.ApplyAnnounce | pset4/tracker/state.cc:17-38 | the announce is folded into the torrents, of which `LastAnnounceWins` says what is stored; the peer's torrent is created if need be |
| Tracker.TrackerState.SuccessResponse | pset4/tracker/http.cc:193-217 | for any state the decoder reads the whole body as a dictionary of interval 100 and a list with one dictionary for each listed peer, in order: the text of its address, and its port |
| Tracker.TrackerState.ProcessAnnounce | pset4/tracker/messages.cc:8-12 | the announce is applied, the serial is repeated, and the body lists the peers that the new state lists; if the state was what some announces made of it, each is listed with the address and port of its last announce; the body decodes to the response that the old state gives too |

## Left out

- Paxos: the repository has one fixed primary, and the model invents no consensus protocol. The network between
  replicas carries nothing.
- The coroutine runtime, event cancellation and the 1 ms receive delay: a receive is one step, and a timeout may happen
  at any moment while a client waits. A message that a timed-out receive has consumed counts as lost.
- Liveness and probability: delays, loss rates and random choices are arbitrary. The seven hexadecimal digits in a value
  are any seven characters.
- Overflow of versions, serials, lengths and the response's `count`: these are unbounded integers.
- The order of deliveries that are due at the same time for different sources: any order is allowed.
- The registries of ports and channels in `netsim.hh`: a port is modelled with its inbound channels, which share one
  link delay and one send delay, and messages with their source address.
- Pointers into the map: a pointer is a key or the nonexistent entry, and the nonexistent entry is an object that is
  handed to every database.
- Iterators: loops over a map run over the sequence of its sorted keys.
- Bytes: text is a sequence of characters. The 20 bytes of a peer id are characters whose order is that of the bytes as
  the map compares them; where `char` is signed, each stands for its value plus 128.
- HTTP parsing, `parse_announce_request`, `peer_ipv4`, `hex_bytes`, `tracker_debug_response` and the formatters: input,
  output or thin wrappers.
- `print`, `print_near`, option parsing, `main`, the phase counters, `random_source`: no part of the properties.
- `std::format` and `std::from_chars` are modelled by what they do to decimal numbers.
- Parts of long loop bodies are methods of their own (`Differs`, `CompareHeads`, `ReadGroup`, `ReadIndex`, `CheckSlot`,
  `ReadPart`, `ListPeers`, `FormatPeer`); the source has them inline.
