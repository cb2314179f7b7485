# How a node joins a cluster and keeps its membership right

A model of four connected parts of auto-consensus, with proofs about every run of each.

1. **Membership reconciliation.** A leader drives the Raft server list towards what gossip
   reports. A full pass (`reconcileMembersWithRaft`) and the per-peer handlers
   (`handlePeerJoin`, `handlePeerLeave`) each decide once from a configuration snapshot and
   then issue `AddVoter` and `RemoveServer` one call at a time. A call may commit, be
   refused, or take effect and still report an error.
   `Cluster.dfy` has the server list and its single-server changes, `Membership.dfy` the
   plans decided from a snapshot, `RaftNode.dfy` the handlers as methods that change a
   `Raft` object call by call. `Convergence.dfy` says where committed plans lead,
   `Progress.dfy` what repeated passes achieve when calls fail, and `Interleaving.dfy` runs
   any number of passes and handlers as goroutines whose calls interleave. `Exactness.dfy`
   says exactly which goroutines may run beside a pass, `Staleness.dfy` what handlers do under
   failures, from fresh snapshots and from stale ones, and `Clashes.dfy` exactly when two
   goroutines can get in each other's way.
2. **Gossip metadata.** `Base64.dfy` is the codec of section 4 of RFC 4648 as Go's
   `StdEncoding` implements it, `Metadata.dfy` the text printed, cut to a limit and parsed
   again, `Invention.dfy` what a receiver may be made to believe by a cut text or a separator
   inside an address, `Survival.dfy` exactly what a cut text yields, `Delegate.dfy` the delegate
   object, its setters, and the frames of application
   messages.
3. **Bootstrap.** `Lifecycle.dfy` gives a node's run as a function of what it meets turn by
   turn: states visited, outcome, waits. `Lives.dfy` follows a node over any starts and stops:
   what `DidBootstrap` remembers and which mDNS servers and gossip instances are left up. `Decisions.dfy` says in terms
   of what the turns meet exactly how a run ends and how long it waits. `Walks.dfy` shows that the edges of the state
   machine are exactly what runs can trace. `Subscribers.dfy` covers the notification
   channels, `Bootstrapper.dfy` the object whose methods carry out a run, and `Election.dfy`
   many nodes deciding at once whether to bootstrap.
4. **Discovery and forwarding.** `Mdns.dfy` has the TXT records of the advertiser, their
   parser, the merge of a stream of entries and the advertiser object. `Forward.dfy` has the
   server that answers forwarded commands and the bounded redirect recursion.

`Options.dfy` and `Tags.dfy` hold what several parts share: missing values, and lists of tagged
fields in which the last one counts.

## Main results

- *Convergence under concurrency, exactly* (`Exactness.ConvergesExactly`): passes, joins and
  leaves, each with its own reading of gossip and its own stale snapshot, one of them a pass
  over current gossip: every interleaving whose calls commit ends at the target, from every
  server list, if and only if each goroutine is harmless. That is: a join names a wanted peer
  at its address or is ignored, a leave names an unlisted ID or the node itself, an older pass
  wants nothing else and misses no listed ID. Events that match current gossip are
  (`Interleaving.MatchingIsHarmless`); a join with an outdated address is not
  (`Interleaving.OldJoinCanWin`).
- *Safety under everything* (`Interleaving.RunsAreSafe`): whatever gossip each goroutine
  read, however calls interleave and fail, consecutive configurations differ in at most one
  server, majorities of them overlap, and the leader's own entry is never touched.
- *Progress under failure* (`Progress.PassesProgress`, `Progress.CleanPassRepairs`,
  `Staleness.FeedProgresses`): for passes and for handlers on fresh snapshots the target
  stands still, every call that changes the configuration lowers a measure, and servers
  already right stay right. Stale snapshots break one part of this: some run takes away a
  server that is right if and only if a server listed at a wrong address at the start is the
  business of two goroutines (`Clashes.LosesExactly`), and the step that does it is always a
  replacement decided before the peer was put right (`Staleness.StaleReplaceUndoes`). One
  refused call can then leave that peer out (`Staleness.StaleJoinCanLosePeer`).
- *Codec, exactly* (`Metadata.ReceivedExactly`): the receiver reads what was set if and only
  if the text fits the limit and no address contains `|`. For such addresses
  `Survival.ReceivedIs` says what is read at every limit, character by character and byte by
  byte, and `Survival.WholeFrom` the limit from which each field is whole. Field by field, no limit makes it
  read something false if and only if no part hidden behind a `|` in an address says so
  (`Invention.InventsNothingExactly`); in particular the bootstrapped flag is invented if and
  only if an address contains `|bootstrapped` (`Invention.FlagInventedExactly`).
- *One bootstrapper* (`Election.RivalsOverlapped`, `Election.AtMostOneBootstraps`): for any
  number of nodes, with rechecks that report everyone advertised before they began, two nodes
  both bootstrap only if they were once in their recheck-to-advertise windows together. So if
  windows do not overlap at most one node ever runs by bootstrapping. `Election.OverlapElectsTwo` and
  `Election.MissedRecheckElectsTwo` show that each of the two assumptions is needed.
- *Decisions, exactly* (`Decisions.EndsExactly`, `Decisions.BootstrapsExactly`): the first turn
  that does not fail with retries left decides how a run ends. A run bootstraps if and only if
  that turn finds no cluster, its slot wait completes, its recheck sees nobody bootstrapped and
  gossip has no other member.
- *Traces, exactly* (`Walks.TracesAreWalks`): a sequence of states begins the trace of some
  run if and only if it follows the edges of the state machine.
- *`DidBootstrap`, exactly* (`Lives.DidBootstrapExactly`): whatever the next run meets, it
  will tell whether that run went through Bootstrapping, if and only if no run before it did.
  The flag is never cleared, so a node that bootstrapped, stopped and then joined still
  reports true (`Lives.FlagOutlivesStop`).
- *What a stop leaves up, exactly* (`Lives.StopLeavesNothingUp`, `Lives.StopLeavesNoGossip`):
  a stop leaves an mDNS server of the node up if and only if the node was ever started again
  right after a run that failed with its server up, because a start replaces the advertiser
  without stopping it; such a server goes on saying that the node is not bootstrapped. In the
  same way a gossip instance is left up if one ever came up while another was still there, or
  if gossip fails to leave. `Lives.RestartLeavesBothUp` and `Lives.RestartLeavesServerUp` are
  histories where this happens.

- *Forwarding, exactly* (`Forward.RepliesExactly`, `Forward.ForwardApplies`): over any table of
  servers and any link failures, which reply comes back, result or error, and whether and how
  the leader was asked to apply.

## Model

| member | source | states |
|---|---|---|
| Cluster.AfterAllView | internal/raft/callbacks.go:12-17 | Any sequence of AddVoter and RemoveServer calls acts on the server list as on a finite map from ID to address, and never lists an ID twice |
| Cluster.EffectIsLocal | internal/raft/callbacks.go:12-17 | One call, whatever its reply, changes the configuration at the ID it names and nowhere else |
| Cluster.QuorumsOverlap | internal/raft/reconcile.go:69-118 | Majorities of two configurations that differ in one server share a member |
| Membership.DesiredOfMember | internal/raft/reconcile.go:69-71 | With unique gossip IDs the wanted configuration holds exactly the bootstrapped peers with a Raft address, each at that address |
| Membership.PassCovers | internal/raft/reconcile.go:51-118 | A pass plans only calls towards the target, none for a server already right, and leaves out no server that is off |
| Membership.JoinCovers | internal/raft/callbacks.go:110-173 | A join that carries gossip's address plans only calls that put this peer at that address, and plans some unless the snapshot shows it there |
| Membership.JoinCalls | internal/raft/callbacks.go:110-173 | For every peer, gossip, snapshot and answers, the calls of a join: none if ignored or in place, an addition if absent or unread, and for a peer listed elsewhere a removal and then an addition whatever became of the removal |
| Membership.MemberCalls | internal/raft/reconcile.go:69-101 | The calls of a pass for one member: none if ineligible or in place, an addition if absent, and for a member listed elsewhere a removal, followed by an addition only if it committed |
| Membership.FirstDecides | internal/raft/callbacks.go:180-186 | Gossip vouches for a peer exactly when the first member with its ID is bootstrapped |
| Membership.IssueAppend | internal/raft/reconcile.go:66-118 | Running one plan after another is running the concatenated plan, call numbers included |
| RaftNode.Raft.AddVoter | internal/raft/callbacks.go:15 | A call that is not refused puts the server at the address; only a committed one reports success |
| RaftNode.Raft.RemoveServer | internal/raft/callbacks.go:16 | A call that is not refused drops the server; only a committed one reports success |
| RaftNode.Node.ReconcileMembers | internal/raft/reconcile.go:24-44 | Without Raft or gossip, or off the leader, nothing is called; otherwise the full pass runs, as a goroutine that begins then plans it |
| RaftNode.Node.ReconcileMembersWithRaft | internal/raft/reconcile.go:46-119 | On a reachable leader the calls and the resulting list are those of the planned pass under any replies, and with all calls committed the configuration is exactly the target |
| RaftNode.Node.ServerMap | internal/raft/reconcile.go:59-62 | The map filled from the snapshot is the list read as a map |
| RaftNode.Node.AddOrReplace | internal/raft/reconcile.go:64-102 | The member loop issues exactly the planned additions and replacements, a failed removal skipping the addition, and collects every gossip ID |
| RaftNode.Node.RemoveStale | internal/raft/reconcile.go:104-118 | The server loop removes exactly the listed servers that are neither the node itself nor in gossip |
| RaftNode.Node.HandlePeerJoin | internal/raft/callbacks.go:110-126 | A join of the node itself or without Raft calls nothing; any other runs the join plan of a goroutine that begins then |
| RaftNode.Node.HandlePeerJoinWithRaft | internal/raft/callbacks.go:128-173 | The join handler issues the planned calls: nothing for an empty address or an unvouched peer, removal then addition for a changed address even if the removal failed, addition when the configuration cannot be read |
| RaftNode.Node.IsPeerBootstrappedWithGossip | internal/raft/callbacks.go:175-187 | Without gossip every peer counts as bootstrapped; with it the first member with the ID decides, so with unique IDs exactly those gossip lists as such |
| RaftNode.Node.HandlePeerLeave | internal/raft/callbacks.go:193-214 | On the leader one removal is issued for any peer but the node itself, as a goroutine that begins then plans it |
| Convergence.PlanSettles | internal/raft/reconcile.go:69-118 | A committed plan puts every server it names on target and leaves the others alone |
| Convergence.PassReachesTarget | internal/raft/reconcile.go:46-119 | One pass whose calls all commit ends exactly at the target, and a second pass then calls nothing |
| Convergence.FeedSettles | internal/raft/callbacks.go:110-214 | After any sequence of matching events each wanted server named by a join is in place, each stale one named by a leave is gone, all else is as it was |
| Convergence.EventsMatchPass | internal/raft/callbacks.go:128-214 | Every member through the join handler and every absent server through the leave handler, in any order, gives what one full pass gives |
| Progress.MeasureZero | internal/raft/reconcile.go:69-118 | The measure (2 for a wrong address, 1 for a missing peer, 1 for a stale server) is zero exactly at the target |
| Progress.MeasureGauges | internal/raft/reconcile.go:74-118 | Every call a pass may issue lowers the measure when it takes effect and keeps it otherwise |
| Progress.DescentBoundsCalls | internal/raft/reconcile.go:66-118 | A history of such calls has no more effective calls than the measure went down |
| Progress.PassActionIds | internal/raft/reconcile.go:66-118 | No server is the object of two actions of one pass |
| Progress.PassesProgress | internal/raft/reconcile.go:46-119 | Over any number of passes under any failures: the target is unchanged, servers already right stay right, each effective call strictly lowers the measure, and their number is bounded by the measure at the start |
| Progress.CleanPassRepairs | internal/raft/reconcile.go:46-119 | After any such run one pass without failures reaches the target of the configuration the run began with |
| Interleaving.AloneIsHandler | internal/raft/reconcile.go:46-119 | A goroutine left undisturbed issues the calls of the sequential handler, reply by reply, and leaves the same list |
| Interleaving.NextIsLocal | internal/raft/callbacks.go:106-214 | Any step of any goroutine changes at most one server, never the node's own |
| Interleaving.RunsAreSafe | internal/raft/callbacks.go:106-214 | At every step of any run, with stale snapshots and any failures, majorities before and after overlap and the node's own entry is as at the start |
| Interleaving.MatchingIsHarmless | internal/raft/callbacks.go:106-214 | Passes over current gossip, joins that carry its Raft address and leaves of IDs it does not list are harmless |
| Interleaving.RunKeepsEntries | internal/raft/callbacks.go:106-214 | Harmless goroutines never touch a known peer that is not to be added |
| Interleaving.TargetStandsStill | internal/raft/reconcile.go:66-118 | However such goroutines interleave and fail the target does not move, and a clean pass then reaches it |
| Interleaving.InterleavingsConverge | internal/raft/callbacks.go:106-214 | With all calls committed any interleaving of harmless goroutines that runs to its end reaches the target, provided each server that is off is some goroutine's business |
| Interleaving.PassAmongHandlersConverges | internal/raft/reconcile.go:46-119 | One full pass over current gossip among any harmless goroutines, ignored joins and leaves included, is enough for that |
| Interleaving.OldJoinCanWin | internal/raft/callbacks.go:143-168 | A join with an address gossip has since replaced can undo a pass: the peer ends at the old address, as the exact condition says |
| Exactness.RunLast | internal/raft/callbacks.go:106-110 | Any goroutine can finish last, alone, after all the others |
| Exactness.ConvergesExactly | internal/raft/callbacks.go:106-214 | Passes, joins and leaves with their own readings of gossip, one of them a pass over current gossip, reach the target from every list in every interleaving if and only if each of them is harmless |
| Staleness.FeedProgresses | internal/raft/callbacks.go:110-214 | Handlers in turn on fresh snapshots under any replies: the target is unchanged, servers already right stay right, the measure never rises and every call that changes the configuration strictly lowers it |
| Staleness.StaleReplaceUndoes | internal/raft/callbacks.go:143-168 | From any snapshots and under any replies, a call raises the measure, and takes away a server that was right, if and only if it is the effective removal half of a replacement of a peer already at its address |
| Staleness.StaleJoinCanLosePeer | internal/raft/callbacks.go:143-168 | Two joins from one stale snapshot: the second removes the peer the first put right, and one refused addition leaves it out |
| Clashes.RunUpholds | internal/raft/reconcile.go:69-102 | In every run a wanted server is at its address or where it was, is replaced only if wrong at the start, and was put right only by a goroutine whose business it is |
| Clashes.ClashIsLoss | internal/raft/callbacks.go:143-168 | Two goroutines that both begin at such a server: the second's removal undoes the first's work |
| Clashes.LosesExactly | internal/raft/callbacks.go:106-214 | Harmless goroutines, over all snapshots, interleavings and replies, can take a server that is right off target if and only if some server at a wrong address at the start is the business of two of them, and then even with every call committed |
| Base64.EncodeClean | internal/gossip/delegate.go:80 | An encoding contains neither `\|` nor a line break |
| Base64.AlphabetIs | internal/gossip/delegate.go:80 | The characters are those of section 4 of RFC 4648: A to Z, a to z, 0 to 9, + and / |
| Base64.GroupsMean | internal/gossip/delegate.go:80 | Three bytes and their four characters are one 24-bit number; one or two bytes are padded with zero bits and `=` |
| Base64.GroupAt | internal/gossip/delegate.go:80 | The g-th four characters encode the g-th three bytes |
| Base64.DecodesExactly | internal/gossip/delegate.go:189 | A text decodes if and only if, line breaks aside, it is groups of four alphabet characters, the last perhaps ending in one `=` or two |
| Base64.QuantumMeans | internal/gossip/delegate.go:189 | A group of characters and the bytes it decodes to are the same number, unused bits aside |
| Base64.NewlineIgnored | internal/gossip/delegate.go:189 | A line feed or carriage return anywhere makes no difference |
| Base64.RoundTrip | internal/gossip/delegate.go:188-191 | Decoding undoes encoding for every byte string |
| Base64.DecodeOfCut | internal/gossip/delegate.go:188-191 | A cut encoding decodes exactly when the cut falls between groups of four characters, and then to the bytes of the whole groups, a prefix |
| Base64.DecodeShrinks | internal/gossip/delegate.go:188-191 | Encoding what was decoded takes no more characters than were decoded |
| Base64.EncodeLength | internal/gossip/delegate.go:80 | The encoding of n bytes has (n + 2) / 3 * 4 characters |
| Metadata.SplitJoin | internal/gossip/delegate.go:179 | Splitting at the separator undoes joining for parts without it |
| Metadata.JoinSplit | internal/gossip/delegate.go:179 | Joining undoes splitting for every text, and no part contains the separator |
| Metadata.SplitCut | internal/gossip/delegate.go:82-84 | Cutting a text leaves its first parts whole and a prefix of the next |
| Metadata.ParseFields | internal/gossip/delegate.go:180-195 | Parsing the printed fields gives back addresses, flag and application bytes |
| Metadata.ParseMeans | internal/gossip/delegate.go:179-195 | Of any parts the first is the address, the last of each tag counts, the flag is exactly the word, and the application bytes are those of the last part that decodes |
| Invention.CutNeverInvents | internal/gossip/delegate.go:65-86 | For every limit, with `\|`-free addresses, each address read is a prefix of the real one, application bytes a prefix of the real ones, and the flag is read only if set |
| Survival.SplitCutAt | internal/gossip/delegate.go:82-84 | The parts of a cut text are the whole parts before the cut and what is left of the one it falls in |
| Survival.ReceivedIs | internal/gossip/delegate.go:65-86 | For `\|`-free addresses, exactly how much of each field the receiver reads at every limit: a prefix of the addresses, the flag from its last character on, the application bytes of whole base64 groups or none |
| Survival.WholeFrom | internal/gossip/delegate.go:65-86 | For `\|`-free addresses, the exact limit from which each field is read whole |
| Invention.PartsKnown | internal/gossip/delegate.go:69-81 | The parts after the first are those of the printed fields and those hidden behind separators in addresses, no others |
| Invention.CutAnywhere | internal/gossip/delegate.go:82-84 | Some limit cuts the text inside any given part at any given place |
| Invention.AddressIsPrefix | internal/gossip/delegate.go:181-182 | The first field read is a prefix of the real address at every limit, separators or not |
| Invention.InventsNothingExactly | internal/gossip/delegate.go:179-195 | Field by field: no limit makes the receiver read a false Raft or gRPC address, flag or application bytes if and only if no part hidden behind a `\|` in an address, however cut, says it |
| Invention.NothingInventedExactly | internal/gossip/delegate.go:171-195 | No limit invents anything at all if and only if every part hidden behind a `\|` in an address is honest in every field |
| Invention.FlagInventedExactly | internal/gossip/delegate.go:179-193 | For a node that is not bootstrapped some limit shows the flag if and only if one of its addresses contains `\|bootstrapped` |
| Metadata.ParseLength | internal/gossip/delegate.go:171-195 | Printing what was parsed from any text takes no more room than that text |
| Metadata.ReceivedExactly | internal/gossip/delegate.go:65-86 | The receiver reads exactly what was set if and only if the text fits the limit and no address contains `\|` |
| Invention.BarInvents | internal/gossip/delegate.go:179-193 | An address with `\|bootstrapped` makes the receiver see a flag that is not set |
| Delegate.FrameArrives | internal/gossip/delegate.go:88-126 | A framed message reaches the handler exactly once; ID and message are intact if and only if the ID has no `\|` |
| Delegate.DeliveredExactly | internal/gossip/delegate.go:88-102 | A message is delivered as an ID and a body if and only if there is a handler and the message is the byte 0x01, that ID without `\|`, `\|`, that body; otherwise nothing is delivered |
| Delegate.Delegate.SetBootstrapped | internal/gossip/delegate.go:29-33 | Only the flag changes |
| Delegate.Delegate.SetGRPCAddr | internal/gossip/delegate.go:35-39 | Only the gRPC address changes |
| Delegate.Delegate.SetRaftAddr | internal/gossip/delegate.go:41-45 | Only the Raft address changes |
| Delegate.Delegate.SetAppMeta | internal/gossip/delegate.go:47-51 | Only the application bytes change |
| Delegate.Delegate.SetOnAppMessage | internal/gossip/delegate.go:53-57 | Only the handler changes |
| Delegate.Delegate.SetBroadcastQueue | internal/gossip/delegate.go:59-63 | Only the queue changes |
| Delegate.Delegate.NodeMeta | internal/gossip/delegate.go:65-86 | The text built step by step is the joined fields cut at the limit, never longer, and carries everything exactly when uncut and `\|`-free, never more than is so |
| Delegate.Delegate.NotifyMsg | internal/gossip/delegate.go:88-102 | With a handler a frame calls it once with the frame's ID and body; without one, or for anything else, nothing is called |
| Delegate.Delegate.QueueBroadcast | internal/gossip/delegate.go:115-126 | With a queue the frame is enqueued last; without one nothing happens |
| Delegate.SplitN2 | internal/gossip/delegate.go:97 | The split is at the first separator only |
| Delegate.NodeToInfo | internal/gossip/delegate.go:171-220 | The loop parses the parts; any uncut `\|`-free print is recovered in full; the state is mapped, unknown ones to alive |
| Mdns.ReadRecords | internal/discovery/mdns.go:125-134 | Any selection of an advertiser's records, in any order and with repeats, is read for what it says |
| Mdns.RecordsAre | internal/bootstrap/mdns_advertiser.go:148-166 | The records are a cluster ID and a gossip address where there is one, and one of the two flags, nothing else |
| Mdns.RecordsRoundTrip | internal/discovery/mdns.go:121-152 | Records in any order are accepted if and only if the discoverer has no cluster ID or the same one, and give back the gossip address, or else the entry's own with its port's numeral, and the flag |
| Mdns.FieldsMean | internal/discovery/mdns.go:125-134 | Of any fields the last with each tag counts, and the flag is read exactly from `bootstrapped=1` |
| Mdns.AcceptMeans | internal/discovery/mdns.go:121-152 | Any entry is rejected exactly when its cluster ID differs from a non-empty own one, or it has neither a gossip address nor an IPv4 address with a positive port; otherwise it gives that address and flag |
| Mdns.DecimalIsNumeral | internal/discovery/mdns.go:142 | A port is printed as its decimal numeral: digits without a leading zero that read left to right as the port |
| Mdns.NumeralUnique | internal/discovery/mdns.go:142 | A number has one such numeral |
| Mdns.ParseEntry | internal/discovery/mdns.go:121-152 | The field loop and the fallback yield the accepted peer or none: last cluster ID and gossip address, exact flag, fallback address with the port's numeral |
| Mdns.DiscoverPeers | internal/discovery/mdns.go:69-119 | The merge loop over entries, nil and invalid ones included, until close or timeout lists the merge of the entries seen |
| Mdns.PeerMapToSlice | internal/discovery/discovery.go:37-46 | The slice holds each peer of the map once, in some order |
| Mdns.MergeMeans | internal/discovery/mdns.go:95-118 | One peer per valid address, flagged bootstrapped exactly when some valid entry for that address was |
| Mdns.OrderIrrelevant | internal/discovery/mdns.go:95-118 | The merge depends only on which entries occur |
| Mdns.GrowsWithStream | internal/discovery/mdns.go:95-118 | A longer stream loses no address and no flag |
| Mdns.MDNSAdvertiser.BuildTXTRecords | internal/bootstrap/mdns_advertiser.go:148-166 | The records are the cluster ID and gossip address when set, then the flag |
| Mdns.MDNSAdvertiser.StartServer | internal/bootstrap/mdns_advertiser.go:111-146 | A server that starts answers with the current records; a failure leaves the old one |
| Mdns.MDNSAdvertiser.Start | internal/bootstrap/mdns_advertiser.go:56-70 | Starting twice is harmless; a failed start leaves the advertiser stopped |
| Mdns.MDNSAdvertiser.Stop | internal/bootstrap/mdns_advertiser.go:72-87 | Afterwards no server runs |
| Mdns.MDNSAdvertiser.SetBootstrapped | internal/bootstrap/mdns_advertiser.go:89-103 | A running server is replaced by one that tells the new flag, or goes down if the restart fails, so this advertiser never serves a stale flag |
| Lifecycle.BackoffDoubles | internal/bootstrap/bootstrapper.go:399-405 | The k-th backoff is min(250 ms * 2^k, 15 s) |
| Lifecycle.WaitedBounds | internal/bootstrap/bootstrapper.go:390-397 | A wait lasts at most 1.5 times the backoff, and at least the backoff unless cut short |
| Lifecycle.LoopShape | internal/bootstrap/bootstrapper.go:97-156 | The loop's trace is its failed turns and then the ending its outcome dictates; it gives up exactly when the attempts reach the configured number |
| Lifecycle.RunShape | internal/bootstrap/bootstrapper.go:81-157 | Every trace: the start-up states, failed turns, an ending; with M > 0 retries at most M discovery rounds, exactly M when it gives up, and the run is over within M turns |
| Lifecycle.WaitsBounded | internal/bootstrap/bootstrapper.go:124-125 | Every k-th wait is at most 1.5 times the k-th backoff and a run with M > 0 waits at most 1.5 times the sum of the first M - 1 backoffs |
| Decisions.WaitsAre | internal/bootstrap/bootstrapper.go:124-125 | The k-th wait is the k-th backoff with the jitter and the cut of its own turn |
| Decisions.WaitIsCut | internal/bootstrap/bootstrapper.go:392-396 | A wait that a stop or a cancellation cuts ends at the cut, any other runs its full time |
| Decisions.WaitsSpread | internal/bootstrap/bootstrapper.go:391 | The uncut waits after a backoff are exactly the durations from it up to, not including, half as long again |
| Lifecycle.RunEnds | internal/bootstrap/bootstrapper.go:128-143 | A run ends in Running exactly when it joined or bootstrapped, visits Bootstrapping exactly when it ends by bootstrapping, and never comes back to Init |
| Decisions.EndsExactly | internal/bootstrap/bootstrapper.go:81-157 | A run ends as StartupFailed exactly when start-up fails, and otherwise in the way of the first turn that joins, founds, is cancelled, is stopped or fails with no retry left |
| Decisions.BootstrapsExactly | internal/bootstrap/bootstrapper.go:135-142 | A trace visits Bootstrapping if and only if start-up succeeds and, after turns that all failed with retries left, one proceeds, sees no cluster, may bootstrap, completes its slot wait, sees nobody bootstrapped in its recheck and has no other gossip member |
| Decisions.DiscoveryReports | internal/bootstrap/bootstrapper.go:259-308 | Discovery reports the addresses it was told in order, and a bootstrapped peer exactly when a listed peer is one, or, by addresses, when gossip joined and has another bootstrapped member among more than one |
| Lives.FlagRemembers | internal/bootstrap/bootstrapper.go:137-139 | The flag is set exactly when some run visited Bootstrapping, over any starts and stops |
| Lives.DidBootstrapMeans | internal/bootstrap/bootstrapper.go:206-210 | DidBootstrap holds exactly in a Running node some run of which visited Bootstrapping |
| Lives.DidBootstrapExactly | internal/bootstrap/bootstrapper.go:206-210 | DidBootstrap tells, for every run the next start may meet, whether it reached Running through Bootstrapping, if and only if no run visited Bootstrapping before |
| Lives.FirstRunningIsTold | internal/bootstrap/bootstrapper.go:206-210 | Up to the first Running, over any failed starts, DidBootstrap holds exactly when that run visited Bootstrapping |
| Lives.FlagOutlivesStop | internal/bootstrap/bootstrapper.go:183-185 | Bootstrap, stop, join: DidBootstrap still holds though the last run never visited Bootstrapping |
| Lives.StrandedExactly | internal/bootstrap/bootstrapper.go:216-223 | Servers are left behind by exactly such restarts |
| Lives.StopLeavesNothingUp | internal/bootstrap/bootstrapper.go:216-223 | After a stop some mDNS server of the node is up if and only if the node was ever started again right after a run that failed with its server up |
| Lives.GossipUpExactly | internal/gossip/gossip.go:62-80 | The instance held is up exactly when some start brought gossip up and no stop since took it down |
| Lives.GossipStrandedExactly | internal/bootstrap/bootstrapper.go:251-253 | Gossip instances are left behind by exactly such starts |
| Lives.StopLeavesNoGossip | internal/bootstrap/bootstrapper.go:159-188 | After a stop some gossip instance of the node is up if and only if one ever came up while another that no stop had reached was still there, or this stop fails to take down the last |
| Lives.RestartLeavesBothUp | internal/bootstrap/bootstrapper.go:212-257 | A cancelled run, a start that joins, a clean stop: a server and a gossip instance are still up |
| Lives.RestartLeavesServerUp | internal/bootstrap/bootstrapper.go:216-223 | A run that fails because gossip does, a start that joins, a stop: one server is still up |
| Walks.RunWalks | internal/bootstrap/bootstrapper.go:81-157 | Every trace follows the edges of the state machine from Init |
| Walks.WalkIsTraced | internal/bootstrap/bootstrapper.go:81-157 | Every walk along the edges begins the trace of some run |
| Walks.TracesAreWalks | internal/bootstrap/bootstrapper.go:81-157 | Beginning a trace and following the edges are the same thing |
| Subscribers.DeliveredInOrder | internal/bootstrap/bootstrapper.go:420-440 | However broadcasts and reads interleave, the buffer never exceeds 16 and what is received and waiting is an in-order selection of the changes that misses exactly the dropped ones |
| Subscribers.StepExactly | internal/bootstrap/bootstrapper.go:424-428 | A broadcast that finds fewer than 16 changes waiting puts its change last, one that finds 16 drops it, and a read takes the change that has waited longest |
| Subscribers.NothingDroppedExactly | internal/bootstrap/bootstrapper.go:420-440 | Nothing is dropped if and only if no broadcast found 16 changes waiting, and then everything broadcast was received or waits |
| Subscribers.ChangesChain | internal/bootstrap/bootstrapper.go:407-418 | The changes broadcast along a run lead unbroken from its first state to its last, each a real change |
| Subscribers.RunReadsChain | internal/bootstrap/bootstrapper.go:407-440 | A subscriber that is sent any stretch of a run's changes, no broadcast of which finds 16 waiting, receives or has waiting all of it, and each change's Old is the previous one's New |
| Subscribers.KeptAfter | internal/bootstrap/bootstrapper.go:420-430 | A channel stays in step with the broadcast history through one more broadcast or read |
| Bootstrapper.Bootstrapper.Start | internal/bootstrap/bootstrapper.go:62-157 | Only from Init or Failed; the states entered, outcome and waits are those of the run, every subscriber is offered every change along it between its own reads, Running is entered only with both flags advertised, and servers and gossip instances left up are counted |
| Bootstrapper.Bootstrapper.BringUp | internal/bootstrap/bootstrapper.go:81-92 | The advertiser, then gossip; the first that fails ends the run in Failed |
| Bootstrapper.Bootstrapper.StartMDNSAdvertiser | internal/bootstrap/bootstrapper.go:212-231 | A fresh advertiser replaces the old one, whose server, if up, is left up; the state moves on only if the new one started |
| Bootstrapper.Bootstrapper.StartGossip | internal/bootstrap/bootstrapper.go:233-257 | Once the new gossip instance is up it replaces the old one, which, if up, is left up; if it fails the old one stays |
| Bootstrapper.Bootstrapper.Turn | internal/bootstrap/bootstrapper.go:107-145 | One turn joins, bootstraps or retries as its conditions say; only bootstrapping sets the flag |
| Bootstrapper.Bootstrapper.Loop | internal/bootstrap/bootstrapper.go:94-156 | The loop with its attempt and backoff variables does what the run says, turn after turn |
| Bootstrapper.Bootstrapper.RunDiscovery | internal/bootstrap/bootstrapper.go:259-308 | Peers are reported with their addresses and whether any is bootstrapped; on the address-only path another bootstrapped gossip member is looked for after joining |
| Bootstrapper.Bootstrapper.DecideBootstrap | internal/bootstrap/bootstrapper.go:331-350 | Bootstrap only after the slot wait, if the recheck finds nobody bootstrapped and gossip has no other member |
| Bootstrapper.Bootstrapper.TransitionTo | internal/bootstrap/bootstrapper.go:407-418 | The state changes and every subscriber is offered the change, if it is one |
| Bootstrapper.Bootstrapper.Broadcast | internal/bootstrap/bootstrapper.go:420-430 | Every channel is offered the change, between any reads by its subscriber: one with room takes it, a full one drops it |
| Bootstrapper.Bootstrapper.Subscribe | internal/bootstrap/bootstrapper.go:432-440 | A new empty channel, last |
| Bootstrapper.Bootstrapper.SetBootstrapped | internal/bootstrap/bootstrapper.go:442-452 | Advertiser and delegate, where present, both carry the flag |
| Bootstrapper.Bootstrapper.Stop | internal/bootstrap/bootstrapper.go:159-188 | Refused in Init; otherwise gossip is down unless it fails to leave, the advertiser is down, the state is Init, and the bootstrap flag and what earlier starts left up are as they were |
| Election.StepsFollowEdges | internal/bootstrap/bootstrapper.go:97-156 | A step of many nodes moves one node along one edge of the single node's state machine, restarts a failed one, or stops one at the top of a turn |
| Election.EdgesHappen | internal/bootstrap/bootstrapper.go:97-156 | Every edge of the state machine is a step some node can take |
| Election.AdvertisedExactly | internal/bootstrap/bootstrapper.go:128-140 | A node comes to be advertised exactly by its own step while joining or bootstrapping |
| Election.Deciding | internal/bootstrap/bootstrapper.go:331-350 | A node decides to bootstrap only at the end of its own recheck, when neither that nor gossip found anybody |
| Election.RecheckDecides | internal/bootstrap/bootstrapper.go:331-350 | A recheck ends by deciding to bootstrap exactly when neither discovery nor gossip reported anyone |
| Election.SecondDeclines | internal/bootstrap/bootstrapper.go:336-339 | A node whose reliable recheck ends while another has decided to bootstrap declines |
| Election.RivalsOverlapped | internal/bootstrap/bootstrapper.go:331-350 | With reliable rechecks, two nodes both decide to bootstrap only if at some moment both were between the start of a recheck and their advertisement, whatever third nodes do |
| Election.RunIsSafe | internal/bootstrap/bootstrapper.go:114-142 | Every reachable world: advertised before Running, open rechecks are due to report every other bootstrapper, at most one bootstrapper |
| Election.AtMostOneBootstraps | internal/bootstrap/bootstrapper.go:114-142 | Whichever nodes, at whatever moments, run through Bootstrapping are one and the same; every other Running node joined |
| Election.OverlapElectsTwo | internal/bootstrap/bootstrapper.go:331-350 | With overlapping windows two nodes bootstrap though every recheck is reliable |
| Election.MissedRecheckElectsTwo | internal/bootstrap/bootstrapper.go:331-350 | With windows apart two nodes bootstrap if the second recheck misses the first node |
| Forward.Server.Start | internal/grpc/server.go:41-78 | Starts once; a failed listen leaves the server stopped |
| Forward.Server.Stop | internal/grpc/server.go:80-92 | Afterwards the server is stopped |
| Forward.Server.RegisterService | internal/grpc/server.go:100-110 | A service is added unless the server is up |
| Forward.Server.SetApplyFunc | internal/grpc/server.go:112-116 | Only the apply function changes |
| Forward.Server.SetLeaderCheck | internal/grpc/server.go:118-122 | Only the leader check changes |
| Forward.Server.SetLeaderAddrFunc | internal/grpc/server.go:124-128 | Only the leader address function changes |
| Forward.Server.ForwardCommand | internal/grpc/server.go:130-166 | Off the leader the known leader's address and no apply; on it one apply with the default timeout of 5 s for 0, its result or its error |
| Forward.RedirectsDoNotApply | internal/grpc/server.go:130-166 | An answer the forwarder follows as a redirect applied nothing; a success applied once |
| Forward.ForwardBounded | internal/grpc/forward.go:40-83 | Over any table of servers and any link failures: at most maxRedirectHops calls, along the redirect chain, at most one apply, of this command |
| Forward.RepliesExactly | internal/grpc/forward.go:40-83 | For any table and links the reply is: no leader exactly for an empty address, too many hops exactly after two redirects, a dial or transport error exactly where the link or the address fails, and otherwise what the answering server makes of it: a result, its error, the missing apply function, or a plain failure |
| Forward.CallsExactly | internal/grpc/forward.go:49-65 | The hops that make a call are exactly those come to over good links and redirects whose address can be dialled, each to the address redirected to |
| Forward.ForwardApplies | internal/grpc/forward.go:62-65 | An apply happens exactly when a call gets to a leader with an apply function, of this command, with the whole milliseconds of the timeout or 5000 if there are none |
| Forward.ForwardSucceeds | internal/grpc/forward.go:40-83 | With no transport errors it succeeds with a result exactly when a leader whose apply yields it lies within the first maxRedirectHops addresses of the chain |

## Left out

- hashicorp/raft: log replication, elections and terms are in a library that is not part of this model; Raft is its server list, whether it leads, whether its configuration can be read, and a reply per call.
- Leadership within a handler: it is read once, as the handlers do; losing it later shows only as refused calls.
- The reads at the start of a goroutine: leadership, gossip members and configuration are read in one step; all later calls interleave freely.
- internal/raft/node.go and the restart path of internal/raft/callbacks.go: the life of the Raft node itself (`resetAndRestart`, `waitForAcceptance`) is mostly input and output.
- A nil gossip pointer stored in the interface: gossip is present or really absent.
- memberlist, mDNS and gRPC transport, sockets, TLS: replaced by what they deliver, as parameters: streams of entries, replies to discovery, how each link fares.
- Mutexes, clocks and tickers: locked sections are single steps; durations are numbers.
- The bootstrapper's goroutine: a run is followed over the turns it is given, ending `Open` when they run out, since with MaxDiscoveryRetries 0 it may go on for ever; `Start` and the run it spawns are one call, and a stop or a cancelled context is met at the top of a turn or cuts a wait short. Reads by subscribers fall just before a broadcast.
- The reported cause of a failed discovery or join: only whether and what they found.
- `hashBasedDelay` and SHA-256: the slot wait either completes or is cut; which node waits longer plays no part in the safety proofs.
- Floating-point rounding of the jitter: the factor is an exact real number in [0, 1).
- Election.AtMostOneBootstraps: nodes that advertise keep running; other nodes may stop, fail and start again, but a bootstrapped node that stops takes its advertisement with it, and the assumption on rechecks then no longer describes real discovery.
- Liveness of bootstrapping by several nodes: on the address-only path two nodes that have joined each other both decline for ever, so only safety is proved.
- Apply functions are their outcome: a server's answer is fixed for the length of one forwarded command.
- Bytes outside the application metadata: strings are sequences of characters, one per byte.
- Nil slices and empty ones are not told apart.
- `GetBroadcasts`, static, DNS and cascade discovery, configuration defaults, state names and logging would add only easy members.
