# A model of a small distributed file system

The system is a file system whose clients cache locks and file contents, with a replicated
configuration service beneath it. The model covers its protocols, caches and codecs and proves
what they promise.

- **Paxos** (`Ballots`, `Acceptors`, `Proposers`, `PaxosProtocol`, `PaxosSafety`, `PaxosAgreement`,
  `PaxosExactly`, `PaxosValidity`, `PaxosNodes`, `PaxosGroup`). One instance over a fixed view: its
  members propose and accept in atomic steps, messages are lost, delayed, reordered and repeated, and
  every node may crash and restart from its text log. Agreement is proved for every run; the two ways
  in which the code can lose it (an accept request delivered after the commit, an empty proposal) are
  run-time choices of the model, and agreement is shown to hold exactly when neither can happen.
  Whatever is decided was proposed. `config` never proposes an empty text (`Membership.Config.Add`,
  `Membership.Config.Remove`).
- **Caching locks** (`Locks`, `LockProtocol`, `LockSafety`, `LockGuarantees`, `LockProgress`,
  `LockNodes`, `LockSystem`). Any number of clients and threads; calls, answers, retries, revokes and releases race.
  The invariant says in which one place the lock is and in which one place the demand for it is.
- **Write-back extent cache** (`Extents`, `Coherence`, `Creation`, `ExtentStore`). Extents and locks
  together refine one global map, in which extents appear and disappear; a new file, whose first put
  is made without its lock, exactly when nobody comes to its lock before the creator.
- **RPC** (`ReplyWindow`, `AckWindow`, `AtMostOnce`, `AtMostOnceExactly`, `AtMostOnceServed`,
  `AtMostOnceAnswers`, `RpcServer`, `RpcExchange`). At-most-once execution while the client waits,
  exactly when it holds for good, what every arrival of a call is answered with, and exactly when a
  call is refused without having run.
- **Marshalling** (`Marshalling`, `WireFormat`, `Decoding`, `Buffers`, `Overruns`, `Readers`). A typed,
  self-delimiting codec over integers, strings, nested vectors and maps, the growing buffer and the
  failing reader beneath it, the bytes of every kind of value, and exactly which bytes lead the reader
  past its buffer.
- **Directories and files** (`Directories`, `DirectoryMaps`, `FileContents`, `FileSystem`,
  `SharedFiles`). A printer and a parser with in-place append, directories as maps, files as byte maps,
  for one client and for many that work on one extent under its lock.
- **Views** (`Views`, `Membership`). The text form of views, chains of views, choice of the primary.

`Text` holds the conventions of C++ streams that several of these rely on; numbers are read from
streams as by the C++11 library, in which text without digits gives 0. `TextForms` says
outright what numbers, names, directories, views and log lines look like. `Option` is the usual option
type. A `.dfy` file holds the module of the same name.

Protocols are state machines: an `Action` type, `Enabled`, `Next`, and runs as sequences of actions;
the theorems quantify over every run. Code that updates fields or loops is also modelled as classes
and methods. `PaxosGroup`, `LockSystem` and `RpcExchange` put the objects together: every call on
them is one step of the protocol, so the protocol's guarantees hold of the objects
(`Group.NodesAgree`, `System.OneHolder`, `Exchange.CallsRunOnce`).

## Where the code differs from its documentation, or from what one would expect

- rpc/rpc.cc:651 says entries with xid at or below the acknowledged one are deleted; the code
  (rpc/rpc.cc:695) keeps the entry that is equal. The model follows the code.
- rpc/rpc.cc:677-682 is meant to find the least remembered xid, but assigns the request's own xid.
  So a call can be executed again after it was acknowledged: `LateArrivalRepeats` and
  `LateReturnRepeats` give runs, `AtMostOnceExactlyWhen` the exact condition. And a call the client
  still waits for can be refused although it never ran: `RefusedWithoutRunning`, `ServedExactlyWhen`.
- acceptreq does not compare the instance (paxos.cc:364) and committing resets the promise
  (paxos.cc:409-412). So a member that paused between its promises and its accept requests can still
  win after another value was committed, and a third member then commits the second value:
  `LateAcceptSplits`. An empty value reads as "nothing accepted" (paxos.cc:114), so those who have
  not heard of its commit decide another: `EmptyProposalSplits`. `CommitsAgreeExactly` shows that
  nothing else makes nodes disagree.
- A node that is two or more instances behind is served by preparereq and acceptreq and then dies on
  the decision (paxos.cc:393-396): `BehindDies`.
- rsm.cc:461 says the lowest numbered node of the previous view becomes primary; the code takes the
  first in list order. The model follows the code.
- A name that contains '@' is cut at the '@' when the directory is read (yfs_client.cc:410-425), so
  creating it twice succeeds twice: `SameNameTwice`. `ReadBackExactly` and `CreateExactly` say which
  names are carried.
- The bounds test on a string adds position and length as 32-bit numbers (rpc/rpc.cc:1004), so a
  length within the position of 2^32 passes it and the string is taken from past the buffer.
  `GuardExactly` and `WrappedLength` say exactly which lengths; `MessagesDoNotOverrun` shows that no
  message, prefix of one or extension of one has any. The reader's contracts carry the outcome.
- A reply of 12 to 23 bytes passes for one with a header (rpc/marshall.h:190-199), with the read
  position behind its end; `UnpackReplyHeader` states it.
- extent_client.cc:11 says the caller holds the lock of the extent; createFile and createDirectory put
  the contents of the new inum without it (yfs_client.cc:145, yfs_client.cc:190). Another client that
  takes the lock first cannot read the file (`CreatedUnseen`), and what it then writes and the server
  stores is not what the creator reads (`UpdateLost`). `CoherentExactlyWhen` gives the condition.
- A write of no bytes behind the end of a file extends it (yfs_client.cc:335-338).
- Reading an absent extent leaves an empty extent in the client's cache (extent_client.cc:37-54),
  after which reads succeed. `ExtentStore` models this, and `FileSystem` states it.

## Model

| member | source | states |
|---|---|---|
| `PaxosAgreement.Agreement` | paxos.cc:91-141 | in every reachable state of one instance, any two runs that won an accept majority carry the same value |
| `PaxosAgreement.CommitsAgree` | paxos.cc:381-420 | every node that committed, by decide or by an old-instance reply, stored the one value that won |
| `PaxosAgreement.DecideNeverAborts` | paxos.cc:382-398 | within one instance the checks in decidereq never fail, even if a higher ballot was accepted between accept and decide |
| `Acceptors.BehindDies` | paxos.cc:321-398 | an acceptor two or more instances behind promises, accepts, and then fails the check on the decision |
| `PaxosAgreement.AcceptPhasesHaveOwnBallots` | paxos.cc:84-121 | ballots may be reused after a restart, yet no two accept phases share one |
| `PaxosExactly.LateAcceptSplits` | paxos.cc:356-420 | at every instance and in every three-member view, late accept requests let a second value win: two members have committed one value, the third commits the other |
| `PaxosExactly.EmptyProposalSplits` | paxos.cc:109-121 | at every instance and in every three-member view, one member commits an empty value that won, and the other two decide and commit another |
| `PaxosExactly.AgreementExactly` | paxos.cc:91-141 | at every instance, at most one value wins in all views and runs, with members proposing, if and only if accepts are not late and proposals not empty |
| `PaxosExactly.CommitsAgreeExactly` | paxos.cc:381-420 | at every instance, no two members ever commit different values, in all views and runs, under exactly the same condition |
| `PaxosValidity.Validity` | paxos.cc:91-141 | every value that wins or is committed was proposed earlier in the run |
| `PaxosValidity.CommittedViewFollows` | config.cc:175-221 | if members propose only successors of the present view, the committed view is one |
| `PaxosSafety.StepKeeps` | paxos.cc:91-420 | every step of proposer, acceptor, network or crash keeps the invariant behind agreement |
| `PaxosSafety.PickIsSafe` | paxos.cc:109-121 | the value chosen after a majority of promises cannot contradict a value that a lower ballot may still win |
| `PaxosSafety.LaterPhasesAgree` | paxos.cc:149-212 | once a ballot has won, every higher accept phase carries its value |
| `Ballots.BallotOrder` | paxos.cc:18-28 | the two comparison operators are one total order |
| `TextForms.BallotsByNumber` | paxos.cc:18-28 | ballots are compared by number, and those of one number by the first difference of the names, a prefix first |
| `Ballots.Majority` | paxos.cc:62-72 | the counting loop decides whether more than half of the list positions are in the other list |
| `Ballots.IsMember` | paxos.cc:43-49 | the search loop decides membership |
| `Ballots.MajoritiesMeet` | paxos.cc:62-72 | two majorities of one list share a node, duplicates in the list included |
| `Proposers.SetN` | paxos.cc:84-88 | the next ballot number is the least that exceeds the promised one and the proposer's last |
| `Acceptors.LogReadBack` | log.cc:18-131 | reading a log text replays exactly the records that were written |
| `Acceptors.RecordReadBack` | log.cc:86-131 | each of the three kinds of line is read back as the record it was written for |
| `TextForms.LogLines` | log.cc:86-131 | the three kinds of line in the log, character by character |
| `Acceptors.Recovered` | log.cc:18-58 | logread rebuilds the acceptor, up to the name in a ballot numbered 0 |
| `Acceptors.StepDurable` | paxos.cc:321-420 | after every request the log still determines the acceptor |
| `Acceptors.SimilarStep` | paxos.cc:321-420 | acceptors that differ only in such a name answer and move alike |
| `Acceptors.CrashesAreInvisible` | log.cc:18-131 | in any run, crashes anywhere change neither the state, up to that name, nor the next answer |
| `PaxosNodes.AcceptorNode.constructor` | paxos.cc:295-307 | the fields of a process that has read no log yet |
| `PaxosNodes.AcceptorNode.Prepare` | paxos.cc:321-352 | preparereq reports an old instance exactly if it has decided it, promises exactly to a higher ballot of a later one, then with its vote and the promise raised and logged, changes nothing otherwise, and leaves a log that rebuilds the node |
| `PaxosNodes.AcceptorNode.Accept` | paxos.cc:355-378 | acceptreq votes exactly when that breaks no promise, changes nothing otherwise, and leaves a log that rebuilds the node |
| `PaxosNodes.AcceptorNode.Decide` | paxos.cc:381-398 | decidereq survives exactly for an old instance, which it ignores, and for the next one with its own vote, which it commits |
| `PaxosNodes.AcceptorNode.Commit` | paxos.cc:399-420 | commit_wo decides a later instance and resets promise and vote, ignores an old one, loses no decided value, and leaves a log that rebuilds the node |
| `PaxosNodes.AcceptorNode.LogRead` | log.cc:18-58 | the reading loop ends in the replayed state, or reports a file that is not a log |
| `PaxosNodes.Restart` | log.cc:10-58 | a process that starts on the log of a lost one is like it, up to the name in a ballot numbered 0, and its log rebuilds it again |
| `PaxosNodes.GatherIsHighest` | paxos.cc:149-212 | prepare collects exactly the nodes that promised and the value of a highest vote they reported |
| `PaxosNodes.ProposerNode.SetMyN` | paxos.cc:84-88 | the new number exceeds the local promise and the last number |
| `PaxosNodes.ProposerNode.Prepare` | paxos.cc:148-212 | asks each node once in order and succeeds if and only if none has decided; otherwise stops at the first that has and commits what it reported |
| `PaxosNodes.ProposerNode.Accept` | paxos.cc:216-257 | asks each node once in order and collects exactly those that accepted |
| `PaxosNodes.ProposerNode.Decide` | paxos.cc:259-289 | every node that accepted is told the value, once and in order |
| `PaxosNodes.PicksHighest` | paxos.cc:109-121 | with a majority of promises a run goes on with the value of a highest vote reported, or its own if that is empty |
| `PaxosNodes.ProposerNode.Run` | paxos.cc:90-141 | busy exactly if a run is under way; learns an old value exactly if some node has decided; wins exactly if none has and both the promisers and the accepters are majorities; gives up in every other case; and what it sends is determined in each |
| `PaxosGroup.Group.OnPrepare` | paxos.cc:321-352 | a delivered prepare moves the acceptor objects by one protocol step |
| `PaxosGroup.Group.OnAccept` | paxos.cc:355-378 | a delivered accept moves the acceptor objects by one protocol step |
| `PaxosGroup.Group.OnDecide` | paxos.cc:381-398 | a delivered decide moves the acceptor objects by one protocol step, and the process survives its checks |
| `PaxosGroup.Group.OnOld` | paxos.cc:188-191 | a commit on an old-instance reply moves the acceptor objects by one protocol step |
| `PaxosGroup.Group.OnCrash` | log.cc:10-58 | a process restarted from its log moves the acceptor objects by one protocol step |
| `PaxosGroup.Group.NodesAgree` | paxos.cc:399-420 | all acceptor objects that have decided the instance hold the same value |
| `LockGuarantees.MutualExclusion` | lock_client_cache.cc:28-155 | at most one thread in the whole system holds a lock |
| `LockGuarantees.LockInOnePlace` | lock_client_cache.cc:28-294 | the lock is free, in an answer, in a retry, owned, being flushed or being returned: exactly one of these, at one client |
| `LockGuarantees.QueueIsSound` | lock_server_cache.cc:60-113 | no client queues twice, a free lock has no queue, and the next in line is never the holder |
| `LockGuarantees.FirstComeFirstServed` | lock_server_cache.cc:60-131 | in every run the clients whose requests were queued, in the order the server handled them, are those the lock was handed to, in that order, followed by those still in line, in theirs |
| `LockGuarantees.LineStep` | lock_server_cache.cc:60-131 | a step adds to the end of the line, or takes its head away and grants to it, or leaves the line alone |
| `LockGuarantees.AcquireAnswer` | lock_server_cache.cc:60-89 | a free lock is given to the client that asks; if it is held the client goes to the end of the line |
| `LockGuarantees.HandOffOrder` | lock_server_cache.cc:91-131 | a release comes from the recorded holder and grants to the head of the line, which `FirstComeFirstServed` shows to be the longest waiter, never the releaser |
| `LockGuarantees.RevokesReachTheHolder` | lock_client_cache.cc:157-185 | every revoke reaches the present holder; the branch without a record is unreachable |
| `LockGuarantees.NoLostRevoke` | lock_server_cache.cc:152-215 | while somebody waits, the demand is with the enforcer, queued, in flight, noted by a busy holder, or the lock is on its way back |
| `LockSafety.StepKeeps` | lock_client_cache.cc:28-294 | every critical section and every delivery keeps the lock invariant |
| `LockSafety.StepMoves` | lock_client_cache.cc:124-136 | a step moves the lock along its path, and it never leaves a client without passing through a flush |
| `LockProgress.HeadCanBeGranted` | lock_server_cache.cc:99-113 | whoever is first in line can still be granted the lock |
| `LockProgress.QueuedCanBeGranted` | lock_server_cache.cc:99-113 | whoever is anywhere in line can still be granted the lock |
| `LockProgress.RequesterCanOwn` | lock_client_cache.cc:252-294 | a client with a request under way can still come to own the lock |
| `LockProgress.WaiterCanHold` | lock_client_cache.cc:57-108 | from every reachable state every thread counted as waiting can still come to hold the lock |
| `LockProgress.AnyoneCanHold` | lock_client_cache.cc:28-108 | from every reachable state every thread of every client, wherever it is in acquire or before it, can come to hold the lock |
| `LockNodes.LockServer.Enforce` | lock_server_cache.cc:151-179 | one pass adds exactly one revoke, to the holder, for each lock with waiters and none under way, and nothing for any other |
| `LockNodes.LockServer.Drain` | lock_server_cache.cc:182-215 | the queued revokes are sent in order, each once |
| `LockSystem.System.Enter` | lock_client_cache.cc:33-54 | on the objects with all locks: one protocol step of this lock, no change to any other, every lock still in a reachable state; a record is made only if there is none |
| `LockSystem.System.Register` | lock_client_cache.cc:57-75 | the same for counting a thread, which goes to fetch exactly if the lock is neither owned nor asked for |
| `LockSystem.System.BeginFetch` | lock_client_cache.cc:256-268 | the same for calling the server, which happens exactly if the lock is neither owned nor asked for |
| `LockSystem.System.EndFetch` | lock_client_cache.cc:272-293 | the same for the server's answer, which counts unless a retry came before it |
| `LockSystem.System.TryTake` | lock_client_cache.cc:84-104 | the same for taking the lock, which succeeds exactly if no thread of the client holds it; a thread that takes it is the holder |
| `LockSystem.System.Release` | lock_client_cache.cc:111-155 | the same for a release; the lock goes back exactly if it was revoked and no thread waits |
| `LockSystem.System.RevokeAtClient` | lock_client_cache.cc:157-223 | the same for a revoke, which always finds a record; the lock goes back exactly if nobody holds, waits or asks |
| `LockSystem.System.RetryAtClient` | lock_client_cache.cc:226-249 | the same for a retry, which is a grant |
| `LockSystem.System.AcquireAtServer` | lock_server_cache.cc:32-89 | the same for an acquire at the server, known lock or not: granted exactly if the lock is free, otherwise the client is last in the queue |
| `LockSystem.System.ReleaseAtServer` | lock_server_cache.cc:91-131 | the same for a release at the server, which comes from the recorded holder and grants to the first in the queue, another client |
| `LockSystem.System.EnforcePass` | lock_server_cache.cc:151-179 | one pass of the enforcer is one Enforce step of each lock that needs it and none of the others |
| `LockSystem.System.SendRevoke` | lock_server_cache.cc:182-215 | one turn of the revoker is one SendRevoke step of the lock it is for |
| `LockSystem.System.OneHolder` | lock_client_cache.cc:28-155 | of all client objects together at most one records a holder of a lock |
| `LockSystem.System.OwnerIsOnRecord` | lock_server_cache.cc:32-131 | a client object that owns a lock is the holder on the server object's record |
| `Coherence.CacheRefinesGlobalMap` | extent_client.cc:24-170 | in every run every get and getattr returns what one global map would, in which each put and remove takes effect at once; an extent that is absent reads as empty |
| `Coherence.OnlyOneCaches` | extent_client.cc:174-209 | at most one client caches an extent, with the current contents, and only the lock holder's client may while it is held |
| `Coherence.StepKeeps` | yfs_client.cc:445-450 | each access and each lock step, with the flush before the release, keeps the caches coherent |
| `Creation.CoherentIfNotOvertaken` | yfs_client.cc:138-148 | with puts of new inums made without the lock, every read in a run is right if no other client comes to hold the lock while the creator alone has the file |
| `Creation.CreatedUnseen` | yfs_client.cc:138-148 | for any two clients there is a run in which one has created the file and a read by the other, holding its lock, fails |
| `Creation.UpdateLost` | yfs_client.cc:138-148 | for any two clients and contents there is a run in which one writes them, the server stores them, and the creator, holding the lock, then reads the file as empty |
| `Creation.CoherentExactlyWhen` | yfs_client.cc:138-148 | reads are right in every run if and only if nobody comes to the lock before the creator |
| `ExtentStore.ExtentServer.constructor` | extent_server.cc:12-16 | the root directory exists and is empty |
| `ExtentStore.ExtentServer.Put` | extent_server.cc:18-52 | the extent is stored and its size attribute is its length, new or not |
| `ExtentStore.ExtentServer.Get` | extent_server.cc:54-82 | the contents, or an error if absent |
| `ExtentStore.ExtentServer.GetAttr` | extent_server.cc:84-111 | the length of the contents, or an error and 0 |
| `ExtentStore.ExtentServer.Remove` | extent_server.cc:113-132 | the extent is gone; an error if it was absent |
| `ExtentStore.ExtentClient.Get` | extent_client.cc:24-69 | what this client sees is returned and, if the extent exists, unchanged |
| `ExtentStore.ExtentClient.GetAttr` | extent_client.cc:72-103 | the size is the length of what a get returns |
| `ExtentStore.ExtentClient.Put` | extent_client.cc:106-145 | this client sees the new contents and keeps them dirty |
| `ExtentStore.ExtentClient.Remove` | extent_client.cc:148-170 | a cached extent is gone at client and server, an uncached one stays; an error exactly when a cached one was unknown to the server |
| `ExtentStore.ExtentClient.Flush` | extent_client.cc:174-210 | the entry leaves the cache, a dirty one is stored, and what is seen does not change |
| `AtMostOnce.AtMostOnceUntilReported` | rpc/rpc.cc:553-642 | a call not yet reported has run at most once, and every result sent for it is what that execution returned (refusals are the subject of `AtMostOnceServed`) |
| `AtMostOnce.StepKeeps` | rpc/rpc.cc:661-750 | requests, repeats, returns, replies and timeouts keep the invariant behind it |
| `AtMostOnceExactly.AtMostOnceForGood` | rpc/rpc.cc:661-731 | without late first arrivals and late returns, a call runs at most once even after it was reported |
| `AtMostOnceExactly.LateArrivalRepeats` | rpc/rpc.cc:677-682 | with late first arrivals some run executes a reported call again |
| `AtMostOnceExactly.LateReturnRepeats` | rpc/rpc.cc:736-750 | with handlers that return late some run executes a reported call again |
| `AtMostOnceExactly.AtMostOnceExactlyWhen` | rpc/rpc.cc:661-750 | calls run at most once in every run if and only if neither kind of lateness can happen |
| `AtMostOnceServed.RefusedExactly` | rpc/rpc.cc:634-688 | in every reachable state, a call that is waited for is refused on arrival if and only if it has not run and lies below a window whose first entry is its least |
| `AtMostOnceServed.NeverRefused` | rpc/rpc.cc:661-731 | if first arrivals are in order, no call that is waited for is refused |
| `AtMostOnceServed.RefusedWithoutRunning` | rpc/rpc.cc:677-688 | otherwise some run refuses a call that is waited for and never ran |
| `AtMostOnceServed.ServedExactlyWhen` | rpc/rpc.cc:661-731 | no run refuses a waited call if and only if first arrivals are in order |
| `AtMostOnceAnswers.AnsweredExactly` | rpc/rpc.cc:553-731 | in every reachable state, a waited call whose request arrives is answered with what it returned if and only if it has returned, is left alone if and only if it is running, and otherwise is run or, below the window, refused |
| `ReplyWindow.KnownIsNotNew` | rpc/rpc.cc:661-731 | a remembered call is not executed again and stays remembered |
| `ReplyWindow.UnknownVerdict` | rpc/rpc.cc:661-731 | an unremembered call is executed unless it lies below a window whose first entry is its least |
| `RpcServer.Least` | rpc/rpc.cc:674-686 | the loop with its misplaced assignment yields the request's own xid if any entry lies below the first, and so answers forgotten exactly in that case |
| `RpcServer.Erase` | rpc/rpc.cc:692-704 | the erasing loop keeps exactly the entries not below the acknowledged xid, in order |
| `RpcServer.Scan` | rpc/rpc.cc:706-726 | a recorded reply wins over an entry without one, whichever comes first |
| `RpcServer.Server.CheckDuplicate` | rpc/rpc.cc:660-731 | verdict and new window of the client are those of the protocol, other clients are untouched |
| `RpcServer.Server.AddReply` | rpc/rpc.cc:736-750 | from then on a retransmission of the call is answered with the first reply it got |
| `RpcServer.Server.Admit` | rpc/rpc.cc:550-583 | a new client starts with an empty window, and nonce 0 is never checked |
| `RpcExchange.Exchange.Call` | rpc/rpc.cc:190-215 | on the client and server objects: a call is one protocol step, with the acknowledgement of the moment |
| `RpcExchange.Exchange.Receive` | rpc/rpc.cc:500-642 | a request is one protocol step; the handler runs exactly on the verdict new, a reply goes out exactly on done, and the verdict on a waited call is determined by how far the call has come |
| `RpcExchange.Exchange.Finish` | rpc/rpc.cc:601-613 | a returning handler is one protocol step |
| `RpcExchange.Exchange.GotReply` | rpc/rpc.cc:350-383 | a reply is one protocol step, with the front of the list as the new acknowledgement |
| `RpcExchange.Exchange.GiveUp` | rpc/rpc.cc:286-295 | a call that timed out is one protocol step |
| `RpcExchange.Exchange.CallsRunOnce` | rpc/rpc.cc:553-642 | on the objects, a call not yet reported has run at most once and is answered with what that run returned |
| `AckWindow.Acks.constructor` | rpc/rpc.cc:126-126 | the list starts at 0 with nothing reported |
| `AckWindow.Acks.Update` | rpc/rpc.cc:386-409 | after any calls, repeats included, the list is sorted, its front is the greatest k with 1..k reported, and above it are exactly the reported numbers |
| `AckWindow.Compress` | rpc/rpc.cc:403-408 | the nested loops end and leave no entry that continues the front |
| `Marshalling.RoundTrip` | rpc/rpc.cc:802-1012 | every typed list of values is read back with okdone true |
| `Marshalling.NoOtherLength` | rpc/rpc.cc:902-921 | every strict prefix and every extension of a message fails okdone |
| `Marshalling.Unambiguous` | rpc/marshall.h:211-260 | of two messages of the same types neither is a prefix of the other |
| `Marshalling.ValueReadBack` | rpc/marshall.h:211-260 | a value of any type, vectors and maps nested, is read back and exactly its bytes are consumed |
| `Marshalling.Local` | rpc/rpc.cc:912-1012 | a successful read does not depend on the bytes behind it |
| `WireFormat.UnsignedBytes` | rpc/rpc.cc:809-853 | the range and the bytes of every unsigned kind up to 32 bits, highest byte first |
| `WireFormat.LongBytes` | rpc/rpc.cc:855-870 | a 64-bit integer is two words, the higher first |
| `WireFormat.SignedBytes` | rpc/rpc.cc:809-853 | the range of every signed kind, and its bytes as those of the residue modulo its width |
| `WireFormat.BoolBytes` | rpc/rpc.cc:802-807 | a truth value is one byte, and every byte but 0 reads as true |
| `WireFormat.CountedBytes` | rpc/marshall.h:211-244 | strings, vectors and maps are a four-byte count and then what they hold, in order |
| `WireFormat.KeyOrder` | rpc/marshall.h:233-260 | map keys are ordered by size, or at their first difference, a prefix first |
| `Decoding.DecodedHasType` | rpc/marshall.h:222-260 | whatever bytes arrive, a successful read yields a value of the type, with ascending map keys |
| `Decoding.InsertKeeps` | rpc/marshall.h:246-260 | inserting a pair keeps map keys ascending and adds at most one |
| `Decoding.InsertSets` | rpc/marshall.h:256-256 | afterwards the key has the value, and pairs of other keys are still there |
| `Decoding.ReadWriteRead` | rpc/marshall.h:211-260 | what was read can be written and read again, and is the same |
| `Overruns.GuardExactly` | rpc/rpc.cc:1002-1012 | the bounds test is right if and only if position and length do not add up to 2^32 or more, and lets the read through if they do |
| `Overruns.WrappedLength` | rpc/rpc.cc:991-1012 | at every position exactly the lengths from 2^32 minus the position up overrun, whatever follows, in bytes that hold no string |
| `Overruns.OverrunIsNoValue` | rpc/rpc.cc:991-1012 | bytes that overrun anywhere in a nested value hold no value of the type |
| `Overruns.MessagesDoNotOverrun` | rpc/rpc.cc:923-1012 | a message, a prefix and an extension of one never overrun |
| `Buffers.Marshall.constructor` | rpc/marshall.h:53-58 | an empty body behind room for the header |
| `Buffers.Marshall.RawByte` | rpc/rpc.cc:777-787 | one byte is appended, growing when full |
| `Buffers.Marshall.RawBytes` | rpc/rpc.cc:789-800 | the bytes are appended; either growth rule makes room for them |
| `Buffers.Marshall.Pack` | rpc/rpc.cc:873-880 | the number is appended modulo 2^32, highest byte first |
| `Buffers.Marshall.PackReqHeader` | rpc/marshall.h:83-97 | the header is in front, and body, size field and position are as before |
| `Buffers.Marshall.PackReplyHeader` | rpc/marshall.h:99-109 | the header is in front, and body, size field and position are as before |
| `Buffers.Marshall.WriteInt` | rpc/rpc.cc:809-870 | every integer type appends its big-endian bytes; a 64-bit one is two words |
| `Buffers.Marshall.Write` | rpc/rpc.cc:802-870 | writing a value of any type appends its encoding |
| `Buffers.Marshall.WriteElems` | rpc/marshall.h:211-218 | the vector loop appends the elements in order |
| `Buffers.Marshall.WritePairs` | rpc/marshall.h:233-244 | the map loop appends the pairs in key order |
| `Readers.Unmarshall.TakeIn` | rpc/rpc.cc:891-899 | the buffer moves over, and is ok exactly when it holds a header |
| `Readers.Unmarshall.OkDone` | rpc/rpc.cc:902-910 | true exactly when nothing failed and nothing is left |
| `Readers.Unmarshall.RawByte` | rpc/rpc.cc:912-921 | the next byte, or failure without moving |
| `Readers.Unmarshall.RawBytes` | rpc/rpc.cc:1001-1012 | the next n bytes, or failure, if n is below 2^32 minus the position; exactly otherwise the test is passed and the buffer overrun |
| `Readers.Unmarshall.ReadInt` | rpc/rpc.cc:930-989 | every integer type is read as its encoding prescribes |
| `Readers.Unmarshall.Read` | rpc/rpc.cc:923-999 | a read overruns exactly when it meets a length that wraps; otherwise it succeeds exactly when the decoder does, with its value and its rest |
| `Readers.Unmarshall.ReadElems` | rpc/marshall.h:220-231 | the vector loop agrees with the decoder, failures and overruns on the way included |
| `Readers.Unmarshall.ReadPairs` | rpc/marshall.h:246-260 | the map loop agrees with the decoder, failures and overruns on the way included |
| `Readers.Unmarshall.ReadArgs` | rpc/rpc.cc:902-999 | unless a wrapped length is met, reading arguments and asking okdone accepts exactly the messages of those types |
| `Readers.Unmarshall.UnpackReqHeader` | rpc/marshall.h:175-188 | ok exactly when the message has room for a header, then with its fields and reading behind it |
| `Readers.Unmarshall.UnpackReplyHeader` | rpc/marshall.h:190-199 | ok exactly when there are 12 bytes, then with the fields; reading goes on behind the header if it is there |
| `Buffers.ReqReadBack` | rpc/marshall.h:83-188 | a packed request header is the one unpacked |
| `Buffers.ReplyReadBack` | rpc/marshall.h:99-199 | a packed reply header is the one unpacked |
| `Readers.SendAndReceive` | rpc/rpc.cc:190-215 | a request with any header and arguments, below 2^31 bytes, arrives as it was sent |
| `Directories.ReadBackExactly` | yfs_client.cc:376-443 | a directory is read back if and only if its names are non-empty and free of '/', '@' and NUL |
| `Directories.AppendedIsWritten` | yfs_client.cc:133-143 | the text appended on create is the encoding of the longer list |
| `Directories.ElementReadBack` | yfs_client.cc:376-425 | one entry is read back, unless its name is empty |
| `Directories.SplitText` | yfs_client.cc:387-393 | the getline loop yields the pieces, without a final empty one |
| `Directories.ParseBuf` | yfs_client.cc:395-425 | the loop parses every piece, or finds one without an '@' part |
| `Directories.InumReadBack` | yfs_client.cc:25-32 | every inum is read back from its decimal form |
| `Directories.WriteDirent` | yfs_client.cc:427-443 | the loop prints the entries with separators between them only |
| `TextForms.DirectoryText` | yfs_client.cc:376-443 | an entry is its number, '@' and its name, and entries are parted by '/' |
| `TextForms.NameUpToNul` | yfs_client.cc:376-385 | a name is printed up to its first NUL |
| `TextForms.Pieces` | yfs_client.cc:387-393 | the pieces of a text are free of the separator and, each closed with it, are the text, closed if it was not |
| `TextForms.SignedRead` | yfs_client.cc:25-32 | blanks and a sign are passed over, a negative number is taken modulo 2^64, and one too great reads as the greatest |
| `TextForms.KindBit` | yfs_client.cc:42-48 | bit 31 tells files from directories, whatever bits are above and below it |
| `DirectoryMaps.DirectoryIsAMap` | yfs_client.cc:109-248 | over every run of creates of names the codec carries and unlinks of any names, the text stays parseable, no two entries share name and kind, and entries and results are those of a map |
| `DirectoryMaps.UnlinkRemovesOne` | yfs_client.cc:198-248 | unlink removes exactly the named file and keeps the others in order |
| `DirectoryMaps.LookupIsFirst` | yfs_client.cc:250-277 | lookup finds the first entry of that name, or 0 |
| `DirectoryMaps.CreateExactly` | yfs_client.cc:109-196 | a create adds exactly the new entry if and only if the codec carries its name |
| `DirectoryMaps.SameNameTwice` | yfs_client.cc:109-151 | any name with an '@' behind a good prefix can be created twice and shows up twice as the prefix |
| `DirectoryMaps.NewInum` | yfs_client.cc:138-140 | a new inum is the random number with bit 31 set for a file and cleared for a directory |
| `DirectoryMaps.InumsDiffer` | yfs_client.cc:138-185 | two creates get the same inum if and only if kind and random number are the same |
| `FileContents.FileIsAByteMap` | yfs_client.cc:290-374 | over every run of reads, writes and size changes, reads return what a byte map holds; gaps and regrown tails are zero |
| `FileSystem.YfsClient.Create` | yfs_client.cc:109-196 | fails without a parent, and exactly if an entry of that name and kind is there; otherwise returns the random number with its kind bit, adds an empty extent and appends the entry to the text, and nothing else changes; undefined on text that is no directory |
| `FileSystem.YfsClient.UnlinkFile` | yfs_client.cc:198-248 | fails exactly without such a file; otherwise the first entry of it goes, the others in order, and the file's extent if it is cached; undefined on text that is no directory |
| `FileSystem.YfsClient.LookupResource` | yfs_client.cc:250-277 | the inum of the first entry of that name, or 0, and nothing changes; undefined on text that is no directory |
| `FileSystem.YfsClient.SetSize` | yfs_client.cc:290-326 | the file is cut or zero-filled to the size, relying on the size attribute being the length |
| `FileSystem.YfsClient.WriteFile` | yfs_client.cc:328-352 | the file is extended with zeros if need be and overwritten in place |
| `FileSystem.YfsClient.ReadFile` | yfs_client.cc:354-374 | what the file holds there, or an error behind its end |
| `SharedFiles.OneAfterTheOther` | yfs_client.cc:109-374 | operations of any clients and threads on one extent, each under its lock, with lock messages, caches and flushes in between: results and contents are those of the same operations one after the other, in the order they ended |
| `SharedFiles.ManyClientsOneFile` | yfs_client.cc:290-374 | the reads, writes and size changes of all clients on one file return what one byte map would |
| `SharedFiles.ManyClientsOneDirectory` | yfs_client.cc:109-248 | the creates and unlinks of all clients in one directory return what one map would, and the caches agree on text that reads as that map |
| `Views.ViewReadBackExactly` | config.cc:100-121 | a view is read back from its text if and only if its names are words |
| `Views.ChainIsSound` | config.cc:175-221 | along every chain views are non-empty, free of repeats, read back from their text, and overlap |
| `Views.DroppedIs` | config.cc:200-221 | a view without one member is the same view with its place closed up |
| `Views.PickSucceeds` | rsm.cc:459-484 | for every later view a primary is found in it, and a new one was in the view before |
| `Views.PrimaryIsCurrent` | rsm.cc:301-322 | whatever views a node hears of and in whatever order, choosing never fails and the primary is in the latest |
| `Membership.ReadMembers` | config.cc:100-110 | the loop yields the words of the text |
| `Membership.WriteValue` | config.cc:112-121 | the loop prints the names |
| `Membership.ValueIsLine` | config.cc:112-121 | a view of words is printed as one line, and not as the empty text unless it is empty |
| `Membership.Config.constructor` | config.cc:50-74 | a node starts with the views in its log; the first node, on an empty log, as the only member of view 1 |
| `Membership.Config.Reconstruct` | config.cc:123-133 | a node that knows some view takes the last one |
| `Membership.Config.Restore` | config.cc:76-82 | a node that takes over a log has its values and stands at its last view; if the log extends its own views it stands where the other node does |
| `Membership.Config.GetView` | config.cc:91-98 | the view of that number, empty if there is none |
| `Membership.Config.Add` | config.cc:175-198 | nothing if the view has moved on; otherwise a non-empty line that reads as the view with the member at the end, which follows the present view if the member is new |
| `Membership.Config.Remove` | config.cc:200-221 | a line that reads as the view without that member, the others in order, which is non-empty and follows the present view if a member removes another |
| `Membership.Config.PaxosCommit` | config.cc:136-163 | the committed text becomes the current view, and extends the chain if it follows the present one |
| `Membership.Rsm.constructor` | rsm.cc:99-101 | the first node is primary before any view is committed |
| `Membership.Rsm.SetPrimary` | rsm.cc:463-484 | none of its checks fails; the primary stays if it can and otherwise is the first of the previous view that remains |
| `Membership.Rsm.CommitChange` | rsm.cc:308-322 | old views are ignored; after a new one the primary is in it |

## Left out

- Sockets, polling, threads, timeouts, the user interface and the replication stubs of the lock server: input and output, or no behaviour to prove.
- Paxos across instances: requests for another instance are not filtered by the code, so one instance over a fixed view is modelled, with late accepts as an explicit choice; the acceptor taking over the log of another node (log.cc:60-84) is not modelled.
- 32-bit wrap-around of ballots, xids, capacities and positions: numbers are unbounded, except where a width is part of a format.
- Readers.Unmarshall.RawBytes: after an overrun nothing is said of the value or of later reads; buffers are below 2^31 bytes, as their int sizes are.
- PaxosNodes.ProposerNode.Run: the replies of other nodes are parameters, and what other threads do to the local acceptor between calls is left to the protocol model, in which proposers are not objects.
- PaxosNodes.AcceptorNode.LogRead: a file that is not a log is reported as failure, where the code aborts on an unknown word and leaves fields unset on a missing number.
- Writing a log record is atomic, and node names are words and values single lines, as the log format needs.
- RPC calls between lock and extent clients and their servers are delivered once and do not fail; threads release only locks they hold.
- The bind call is outside the at-most-once claim, since its xid is not recorded; so are connections and the choice among them.
- FileSystem.YfsClient.Create: the missing release on one error path, and a random inum that is already in use, are not modelled; on directory text with an entry that has no '@' part the outcome is only called undefined, since the code then steps past the end of a list.
- FileSystem.YfsClient.UnlinkFile: the outcome is likewise only called undefined on such text; that unlink and create touch two extents under two locks is modelled on one client; `SharedFiles` covers their effect on the directory, and `Coherence` and `Creation` that on the file's own extent.
- FileSystem.YfsClient.LookupResource: the outcome is likewise only called undefined on such text.
- Time stamps: the attributes modelled are sizes.
- Fairness: progress of the lock service is stated as what can still happen from every reachable state.
