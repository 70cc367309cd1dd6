# dhcplt in Dafny

dhcplt is a DHCPv4/DHCPv6 load tester. It makes up many clients, each with a MAC address, a stack of VLAN tags and
identity options; dials them all at once; sums up the results; saves the leases; and, if asked to, lets the clients
flap. A DHCPv6 client may sit behind a relay agent that runs in the same program. This project models those parts and
proves what they promise.

How the parts compose:

- **Who the clients are.** `Digits`, `TagSpace`, `VlanTags`, `Template` and `Allocator` model the generation of client
  configurations: addition on digit strings, the progression of tag stacks without the excluded ones, the tags as
  mutable objects. `ClientId` prints a client's identity, `ClientTable` builds the client table. The end-to-end result is
  `ClientTable.NewSched`.
- **The run.** `Dialing` has the goroutines of one client, `RunProtocol` the whole run as a step relation over any number
  of clients: positions, bounded channels, WaitGroups, the cancellation and the close. `RunInvariant` proves the
  invariants, `RunLiveness` deadlock freedom and termination, `RunOutcome` what a finished run has accounted for,
  `RunTrace` what it reports, told from its steps alone, `RunWitness` which configurations have runs that end badly. `Summary` and `LeaseMerge` are the collector and the saver;
  the run uses them.
- **Flapping.** `Flapping` and `FlappingProof` are the protocol and its invariants, `FlappingEnd` how it ends,
  `FlappingWitness` exactly when it can jam or panic, `FlappingStart` whole programs, from the first dials on.
- **Behind a relay.** `Dhcpv6Wire` is the wire format, `ConnPair` the in-memory packet pair, `RelayAgent` the two loops
  of the agent, `Pipeline` any client-agent-server line with queues between, `RelayLine` the two together. `Dialv6`
  builds the messages of a dial, and `RelayedDial` has a dial over the concurrent line end as a direct one.
- `OptionText` is the text form of custom options; `Text`, `Bytes`, `Sums` and `Wrappers` are shared helpers.

`dafny verify dfyconfig.toml` checks everything.

## Findings

Properties that do not hold as one would expect, each with its exact condition:

- An interrupt during the first dials stops the lease saver, and the run can then hang for ever. The configurations that
  can hang are exactly those that may be interrupted, save leases and have more than eight clients
  (`RunWitness.HangsIffConfigured`); a run that cannot go on hangs exactly when a dial has a lease to save and its queue
  is full (`RunLiveness.HangsIffJammed`).
- A lease can be missing from the file although its dial succeeded, exactly when it is still queued at the end of the run:
  the saver had stopped before it took the lease, or even before the lease was sent (`RunOutcome.SavedFile`). Every
  configuration that saves leases and dials has such a run (`RunWitness.LosesIffConfigured`).
- A DHCPv6 answer without an IA that the dial looks into takes the program down (`Dialv6.PanicsExactly`,
  `Dialv6.EmptyAdvertiseCrashes`). It is the only panic of the first dials (`RunOutcome.CloseSafety`), and can happen
  exactly when a DHCPv6 client dials a server that may answer so (`RunWitness.PanicsIffBreakable`).
- Flapping that begins with all stacks leased can hang as an interrupted run does, exactly when leases are saved and the
  program need not panic before any client dials again, because nobody receives leases any more
  (`FlappingWitness.JamsIffSaving`, `FlappingEnd.JamIsForEver`). The programs that can come to this, from their start, are
  exactly those that save leases, have a client that dials and flap with different interval bounds
  (`FlappingStart.ProgramJamsIffSaving`). At most eight flapping dials of a stack succeed (`FlappingEnd.FewRedialsSucceed`).
- Flapping can panic in three ways, and within the model in no other (`FlappingProof.StepKeeps`): in a release, because a
  client had no lease of the stack at the start and so has no client for releases, or because a DHCPv6 Reply lacked the
  client or server id that a release needs (`Dialv6.BareLeaseHasNoRelease`); in a dial, on an answer without an IA; in its
  first sleep, when both interval bounds are equal. `FlappingWitness.PanicsIffUnsafe` has the exact condition on a
  beginning. Since a server may refuse the first dials, every program that dials at all can panic while flapping
  (`FlappingStart.PanicsIffDials`).
- The relay agent crashes on exactly the Relay-reply messages without a Relay Message option (`RelayAgent.CrashExactly`,
  `RelayAgent.EmptyReplyCrashes`).
- `Shortest` is 0 for good unless the first result of all is a successful dial (`Summary.ShortestExact`), and so depends
  on the order of arrival (`Summary.ShortestDependsOnOrder`).
- `Released`, `Renewed` and `Rebinded` count failures too (`Summary.Counters`); a DHCPv6 release always counts as a
  success, whatever becomes of its three attempts (`Flapping.ReleaseV6`).
- Any positive number of flapping clients makes all clients flap, because sched.go:1014-1021 never counts; as many flap
  as asked for exactly when none or all are asked for (`FlappingStart.StartFlappers`). README.md of the program says
  otherwise (`-flap 5000` of 10000).
- Two layer-2 keys print alike exactly when MAC and used tags agree (`ClientId.SameTextIffSameIdentity`), so also when
  an empty slot before a tag makes their slots differ (`ClientId.LeadingGapCollides`).
- A custom DHCPv6 option loses its value when printed exactly when its code is a multiple of 65536
  (`OptionText.ParseThenPrint`, `OptionText.ValueLostAtCodeZero`).
- README.md of the program says that with `-vlan` and `-svlan` alone all clients share the tags; the default step in
  conf.go is 1 and they do not. The model follows the code.

## Model

| member | source | states |
|---|---|---|
| Digits.Increase | setup.go:36-44 | Adds a step to a number written as digits, with carries; fails exactly when the sum does not fit the width. |
| Digits.ValueOfRender | setup.go:36-44 | The digit string of a number stands for that number, if it fits. |
| Digits.RenderOfValue | setup.go:48-55 | Every digit string is the one rendered from its value. |
| Digits.TermIsProduct | setup.go:32-44 | Adding the step again and again gives start + j * step. |
| VlanTags.Clone | setup.go:46 | A deep copy: fresh tag objects with the same ids and EtherTypes. |
| VlanTags.SetIds | setup.go:77-80 | Overwrites the ids in place and nothing else; refuses a list of another length. |
| VlanTags.CloneWithIds | setup.go:46-81 | The copy gets the new ids, the original keeps its own. |
| VlanTags.Excluded | conf.go:102-111 | True exactly if some tag of the stack is on the exclusion list. |
| TagSpace.SearchFinds | setup.go:48-70 | The bounded search finds the nearest free place of the progression, or there is none within ten places in range. |
| TagSpace.PositionExact | setup.go:48-82 | The incremental search refines the enumeration: client i is given place j if and only if j is free and in range, exactly i free places precede it, and no run of ten excluded places stands before it. |
| TagSpace.PositionReachable | setup.go:48-82 | When the search fails for a client, no place is reachable for it or any later one. |
| TagSpace.ReachableUnique | setup.go:48-82 | No place is skipped or given twice: a client has at most one place, a place at most one client, in order. |
| TagSpace.PositionMonotone | setup.go:72-82 | A client that cannot be served stops all later ones; places grow with the client's index. |
| TagSpace.StacksDiffer | setup.go:72-82 | Different places hold different stacks exactly when the step is positive. |
| Template.GenerateOne | setup.go:88-95 | A template with one "@ID" gives prefix, decimal index and suffix. |
| Template.GenerateFirst | setup.go:88-95 | The first "@ID" becomes the decimal index, whatever follows. |
| Template.LaterVariables | setup.go:91-92 | Each later "@ID" becomes the formatter's complaint about a missing argument, the text around it stays. |
| Template.GenerateNone | setup.go:94 | A template without "@ID" is used as it is. |
| Template.VariableOccurs | setup.go:90 | A template mentions "@ID" if and only if these three characters stand somewhere in it. |
| Template.GenerateInjective | setup.go:88-95 | Two clients get different strings exactly when the template mentions "@ID". |
| Allocator.GenOptions | setup.go:83-122 | The shared options come first; then circuit id and interface id with the text of the circuit template, both remote ids with that of the remote template, and client identifier and client DUID with that of the client id template, each with the client's index and exactly if its template is set, in this order and nothing else. |
| Allocator.OptionsDiffer | setup.go:97-122 | Two clients have different DHCPv4 options, DHCPv6 options or relay options exactly when a template used there mentions the index. |
| Allocator.IncVids | setup.go:48-70 | Ten tries find the next stack of the search, and fail exactly when the search does. |
| Allocator.PlaceMeans | setup.go:48-70 | Place j exists and is free exactly if StartVLANs + j * VLANStep, as a number, fits the tags, and none of these tags is excluded. |
| Allocator.NextVlans | setup.go:46-82 | The next client's tags are fresh objects with the ids of its place; fails exactly when it has none. |
| Allocator.GenClientConfigurations | setup.go:27-136 | Succeeds exactly if the last client's MAC and tag stack fit; then client i has MAC StartMAC + i * MacStep and its own place's tags and options, no tag object is shared, and nothing that existed before has changed. |
| Allocator.LaterFails | setup.go:32-43 | If the last client can be served so can every earlier one. |
| Allocator.PlanMeans | setup.go:32-82 | The MAC of client i is, as a number, StartMAC + i * MacStep, and its tags are, as a number, StartVLANs + j * VLANStep without excluded tags, for its place j. |
| ClientId.GetClientIDFromL2Key | lease.go:241-250 | The loop prints MAC and used tags of the key, without the EtherType. |
| Text.DecimalOfNumber | lease.go:246 | Among the digit strings of a number exactly the one without leading zeros is its decimal form. |
| Text.DecimalDigits | lease.go:246 | Digit by digit, the last one is n % 10. |
| Text.HexPairIs | lease.go:242 | A byte prints as its high and its low hexadecimal digit, in lower case. |
| ClientId.MacTextAt | lease.go:242 | The MAC prints as its bytes in order, two digits each, with colons between. |
| ClientId.AppendedIs | lease.go:242-248 | Behind it each used tag follows with "|" and its decimal form, in order. |
| ClientId.ParseOfIdText | lease.go:241-250 | Printing loses nothing: a parser recovers MAC and tags from the text of every identity. |
| ClientId.SameTextIffSameIdentity | lease.go:241-250 | Two keys print alike exactly when MAC and used tags agree. |
| ClientId.SameTextUpToEtherType | lease.go:238-250 | Among keys whose empty slots come last, two print alike exactly when they differ at most in the EtherType. |
| ClientId.LeadingGapCollides | lease.go:243-248 | Without that condition two different slot fillings print alike. |
| ClientId.IdentityOfKey | sched.go:505-508 | The key of a client tells back its MAC and tags for each EtherType. |
| ClientId.KeyEnds | lease.go:238-242 | The key begins with the MAC and ends with the EtherType in network byte order. |
| ClientTable.MacFitsExact | setup.go:37-44 | Client i's MAC fits exactly if StartMAC + i * MacStep is a number of so many octets, and is that number. |
| ClientTable.TagsFitExact | setup.go:72-82 | Client i's tags fit exactly if the enumeration has a place for it, and are that place's. |
| ClientTable.OctetsOfMacBytes | lease.go:242 | The bytes of a MAC in a key are its octets, each at its place. |
| ClientTable.IdTells | sched.go:825-827 | The id of client i parses to a MAC that is, as a number, StartMAC + i * MacStep, and to the tags at its place of the progression. |
| ClientTable.IdentitiesDiffer | setup.go:32-135 | Two clients differ in MAC or tags exactly when MacStep is positive, or VLANStep is and there are tags. |
| ClientTable.ClientIdsDiffer | sched.go:825-827 | The same for their printed ids. |
| ClientTable.NewClients | sched.go:739-828 | The table has an entry for each id, with the last configuration that has it. |
| ClientTable.OneEntryPerClient | sched.go:739-828 | The table has n entries, each client's own, if and only if there is at most one client or MACs or tags advance. |
| ClientTable.NewSched | sched.go:708-841 | From setup to table: fails exactly when some client cannot be served; otherwise every client's id parses to a MAC that is, as a number, StartMAC + i * MacStep and to the tags at its place, and each client has its own entry with that MAC and these tags under that id, exactly if there is at most one client or MACs or tags advance. |
| LeaseMerge.SaveLeases | lease.go:269-294 | The saver's loop over entries updated in place computes the merge, without sharing entries between ids. |
| LeaseMerge.MergeAllIsCombined | lease.go:271-294 | The merged map has an entry for each id of either stream and no other, with the last lease of each stream. |
| LeaseMerge.MergedIsLast | lease.go:273-294 | Told from the arrivals: the map holds every lease that no later one of its id and stack replaces. |
| LeaseMerge.MergedArrived | lease.go:273-294 | Every entry, and every lease in one, arrived for that id. |
| LeaseMerge.MergeConfluent | lease.go:273-294 | Every interleaving of the two streams gives the same map. |
| Summary.ResultSummary.CollectResults | sched.go:843-898 | The collector's loop over the summary's fields computes the tally of the results. |
| Summary.Counters | sched.go:860-889 | Each counter is the number of results it is about; the three action counters include failures. |
| Summary.Conservation | sched.go:860-889 | Total = Success + failed dials + Released + Renewed + Rebinded, and LessThanSecond is at most Success. |
| Summary.LongestExact | sched.go:881-883 | Longest is the maximum time of a successful dial, and 0 without one. |
| Summary.LongestElapsed | sched.go:850-883 | When elapsed times fit a duration, Longest is the greatest finish - start of a successful dial, and 0 without a positive one. |
| Summary.SpanExact | sched.go:845-859 | TotalTime is the latest finish minus the earliest start, as far as these pass the sentinels. |
| Summary.SpanElapsed | sched.go:845-890 | TotalTime is the latest finish minus the earliest start of all results, clamped to the bounds of a duration, when these pass the sentinels. |
| Summary.OrderIndependent | sched.go:849-896 | For every permutation of the results the summary, Shortest apart, is the same. |
| Summary.ShortestExact | sched.go:884-893 | Shortest is the minimum time of a successful dial if the first result is one below the maximum duration, and 0 otherwise. |
| Summary.ShortestElapsed | sched.go:850-893 | When elapsed times fit a duration, Shortest is the least max(0, finish - start) of a successful dial if the first result is one below the maximum duration, and 0 otherwise. |
| Summary.SubExact | sched.go:850 | A difference of times is exact when it fits a duration, and is clamped to the nearer of MAX_DURATION and MIN_DURATION otherwise. |
| Summary.TakenExact | sched.go:850-856 | The time of a result is max(0, finish - start) when that difference fits, and the maximum duration when it is too large. |
| Summary.ShortestDependsOnOrder | sched.go:884-893 | Two orders of two results give different values of Shortest. |
| Dialing.StepProceeds | sched.go:290-345 | A client's goroutines stay in order, and its WaitGroup never goes below zero. |
| Dialing.StepDelivers | sched.go:403-579 | A dial reports once, and hands over each lease once. |
| Dialing.StepLowersRank | sched.go:290-345 | Every step of a client, with all it puts in channels, lowers its rank. |
| RunInvariant.StepKeeps | sched.go:902-947 | Every step of every goroutine keeps the invariants, but for a panic: WaitGroup counters, channel bounds, results and leases each in exactly one place. A step panics if and only if it looks into an IA that an answer does not have. |
| RunInvariant.PathKeeps | sched.go:902-947 | The invariants hold in every reachable state, but for a panic. |
| RunLiveness.RunsAreBounded | sched.go:902-947 | No run with n clients takes more than 19 n + 8 steps. |
| RunLiveness.SomeStep | sched.go:902-947 | Deadlock freedom: in every reachable state short of the end some goroutine can move, unless a dial is jammed. |
| RunLiveness.RunFinishes | sched.go:1028-1030 | An uninterrupted run that cannot go on has panicked or returned. |
| RunLiveness.JamIsForEver | lease.go:275-276 | After an interrupt, a dial that finds its save queue full blocks for ever, and so does the run. |
| RunLiveness.HangsIffJammed | sched.go:932-947 | A run that cannot go on and has not panicked has finished if and only if no dial is jammed. |
| RunOutcome.SummaryOfFinishedRun | sched.go:849-898 | At the end the channel is closed and empty and the summary is that of exactly one result for each dial, of n times the enabled stacks. |
| RunTrace.SuccessesAreWins | sched.go:860-880 | Success of a finished run is the number of exchanges in it that ended in a lease that could be applied, and Failed the number of all other dials, whether or not leases are saved. |
| RunTrace.ReportsFollowSteps | sched.go:422-431 | Each enabled stack of each client of a finished run has reported once: a success if and only if its exchange ended in a lease that could be applied, with the time at which this stack was started, DHCPv4 first exactly when StackDelay is not negative, and the time of the report. What went to the saver is the lease of that exchange, exactly for a success and when leases are saved. |
| RunTrace.LeasesFollowAnswers | sched.go:498-503 | In every reachable state a client holds a lease of a stack if and only if its exchange ended in one, applied or not; it is a bare one exactly if a DHCPv6 server that does not conform left out the ids. |
| RunOutcome.LeaseIsMergedOrQueued | lease.go:273-294 | In every reachable state a lease that was sent is in the saver's map if and only if it does not wait in its queue; at most eight wait for each stack. |
| RunOutcome.NoStrayLease | lease.go:273-294 | What the map holds for a client is a lease that its own dial has sent. |
| RunOutcome.SavedFile | lease.go:296-302 | The file holds the lease of every successful dial except exactly those still queued, and none of a failed one. |
| RunOutcome.CompleteIffDrained | sched.go:941-947 | The map is complete if and only if the queue is empty. |
| RunOutcome.CloseSafety | sched.go:427-431 | No goroutine sends on the closed channel, nothing is closed twice, no WaitGroup goes negative: a run has panicked if and only if its last step looks into an IA that is not there. After the close no client has a step left. |
| RunOutcome.WholeRun | sched.go:902-1030 | The run from start to end, under every scheduling: bounded, and returned with everything accounted for unless it has panicked, which it cannot when answers carry the IAs looked into. |
| RunWitness.HangsIffConfigured | sched.go:902-947 | A configuration has a run that can never return any more if and only if it may be interrupted, saves leases, dials at all and has more than eight clients. |
| RunWitness.JamIsReachable | sched.go:505-510 | In each such configuration an early interrupt and eight saved leases lead to a jam. |
| RunWitness.LosesIffConfigured | sched.go:941-947 | A configuration has a finished run with a lease missing from the file if and only if it saves leases and dials at all. |
| RunWitness.PanicsIffBreakable | sched.go:408-421 | A configuration has a run that panics in the first dials if and only if some client dials DHCPv6 and the server may leave out an IA that is looked into. |
| FlappingProof.StepKeeps | sched.go:969-1028 | A flapping step keeps the invariants, but for a panic. It panics if and only if it is a release without a client for releases or of a DHCPv6 lease without ids, a first sleep with equal interval bounds, or a dial that looks into an IA that is not there. |
| Flapping.ReleaseV4 | sched.go:619-659 | Up to three attempts, until one can be sent; the release is a success if and only if one of the three can. |
| Flapping.ReleaseV6 | sched.go:661-695 | Up to three attempts, until one is answered; the result is a successful release in any case. |
| FlappingProof.DropIsLogged | sched.go:983-999 | While flapping, a stack with a lease logs one release with its times, one without a lease logs nothing. |
| FlappingProof.FlappingHistory | sched.go:949-1028 | If all enabled stacks were leased before, interval bounds differ, and DHCPv6 answers carry the IAs and ids that are looked into: under every scheduling and cancellation nothing panics, each stack's transactions are a prefix of DORA, release, DORA, ..., DORAs minus releases is 0 or 1, and the channel is closed only after every flapper has returned. |
| FlappingProof.ReleasesReportSuccess | sched.go:669-693 | Every DHCPv6 release while flapping is reported as a success. |
| FlappingStart.StartFlappers | sched.go:1014-1022 | The loop starts all clients or none, all for any positive number; as many as asked for if and only if none or all are asked for. |
| FlappingStart.FlappingBegins | sched.go:941-966 | Where the first dials end flapping can begin: one DORA of each dialed stack is logged. |
| FlappingStart.FlappingProgram | sched.go:902-1028 | First dials and flapping in one: if every first result is a success, interval bounds differ, and DHCPv6 answers carry the IAs and ids that are looked into, nothing panics and the transactions alternate. |
| FlappingStart.InterruptedNeverFlaps | sched.go:969-976 | A program that is interrupted during its first dials reports nothing but these, in any run. |
| FlappingStart.FewSavedWhileFlapping | conf.go:113 | While a whole program flaps and saves leases, dials of a stack succeed at most as often as its queue had places left after the first dials. |
| FlappingStart.ProgramJamsIffSaving | sched.go:902-1028 | From the start of the program: some run comes to a jam while flapping if and only if leases are saved, some client dials, and interval bounds differ. |
| FlappingStart.JamsAfterDialsIffSaving | sched.go:902-1028 | After any uninterrupted first dials that all succeed, with ids in DHCPv6 Replies, a flapping dial can jam if and only if leases are saved and interval bounds differ. |
| FlappingStart.PanicsIffDials | sched.go:902-1028 | From the start of the program: some run panics while flapping if and only if there is a client that dials, or one that cannot draw a delay. |
| FlappingEnd.FlappingEnds | sched.go:969-1030 | If all enabled stacks were leased before, interval bounds differ, and DHCPv6 answers carry the IAs and ids that are looked into: after a cancellation at most 22 n + 1027 steps are taken; then the run has returned if and only if no dial is jammed, and none is when leases are not saved. |
| FlappingEnd.NoWorkAfterStop | sched.go:971-1010 | After a cancellation no flapper that is between two actions begins another release or dial, in any run. |
| FlappingEnd.SomeStep | sched.go:969-1030 | Deadlock freedom while flapping, short of a jam. |
| FlappingEnd.JamIsForEver | sched.go:556-561 | A dial that finds its save queue full while flapping blocks for ever. |
| FlappingEnd.FewRedialsSucceed | conf.go:113 | While leases are saved, flapping dials of a stack succeed at most eight times in all, less the leases left in the queue when flapping began. |
| FlappingWitness.JamsIffSaving | sched.go:505-510 | Flapping that begins uncancelled with all stacks leased has a run to a jammed dial if and only if leases are saved, interval bounds differ and some client's lease can be released. |
| FlappingWitness.PanicsIffUnsafe | sched.go:951-966 | From every uncancelled beginning some run panics if and only if an enabled stack of some client was not leased, or there is a client and interval bounds are equal or a DHCPv6 answer may lack an IA or an id that is looked into. |
| OptionText.PrintThenParse | conf.go:275-290 | A printed option parses back to itself exactly if code 0 does not hide a value; the value may contain ':'. |
| OptionText.ParseThenPrint | conf.go:241-256 | Printing a parsed text gives a canonical form, which parses to the same option exactly if the truncated code is not 0 or there is no value. |
| OptionText.PrintInjective | conf.go:284-290 | Two options print alike exactly if they are equal or both have code 0. |
| OptionText.ValueLostAtCodeZero | conf.go:241-256 | Every multiple of 65536 is read as code 0 and loses its value. |
| OptionText.ReadsAs | conf.go:241-256 | The text is cut at its first colon: the low 16 bits of the number before it, in two's complement, are the code, all behind it is the value; fails exactly if what stands before it is no number. |
| OptionText.ReadsNoColon | conf.go:243-245 | A text without a colon fails, unless it is empty. |
| Text.AtoiOfNumeral | conf.go:248 | A number may have a sign, and must fit 64 bits. |
| Text.AtoiNeedsNumeral | conf.go:248 | Nothing but digits with at most one sign in front is a number. |
| Dhcpv6Wire.DecodeOfEncode | dhcpv6relay/relay.go:129-153 | Decoding an encoded message recovers type, hop count, addresses or transaction id, and all options in order. |
| Dhcpv6Wire.EncodeOfDecode | dhcpv6relay/relay.go:176-191 | What decodes is, byte for byte, the encoding of what it decodes to. |
| Dhcpv6Wire.GetOneFinds | sched.go:1084-1093 | Looking up an option finds one with the code exactly if there is one. |
| Dhcpv6Wire.FirstIsGot | sched.go:1084-1093 | The option it finds is the first with the code. |
| Dhcpv6Wire.MessageLayout | dhcpv6relay/relay.go:129-133 | A client message has its type at byte 0, its transaction id at 1 to 3, its options from 4 on. |
| Dhcpv6Wire.RelayLayout | dhcpv6relay/relay.go:143-153 | A relay message has type 12 or 13, then hop count, link address, peer address and options at bytes 1, 2, 18 and 34. |
| Dhcpv6Wire.OptionLayout | dhcpv6relay/relay.go:146-150 | An option has its code and its length in network byte order, then its data. |
| Dhcpv6Wire.EncodeOptionsConcat | dhcpv6relay/relay.go:146-150 | Options follow one another without padding. |
| ConnPair.PacketConnPair.ReadFrom | conpair/conpair.go:46-55 | Copies the oldest packet as far as the buffer goes, and takes it from the queue; blocks exactly if there is none. |
| ConnPair.PacketConnPair.WriteTo | conpair/conpair.go:56-64 | Enqueues the buffer itself at the peer; blocks exactly if 32 packets wait there. |
| ConnPair.NewPacketConnPair | conpair/conpair.go:32-44 | Two connections, each the other's peer, with empty queues. |
| ConnPair.EventLaw | conpair/conpair.go:46-64 | One event keeps the channel law exactly if it does not change a buffer that waits. |
| ConnPair.ChannelLaw | conpair/conpair.go:46-64 | In every interleaving reads are the written packets, in order, cut to the reader's buffer, and at most 32 wait. |
| ConnPair.InOrderExactly | conpair/conpair.go:46-64 | A run delivers in order if and only if every read finds its packet as it was handed over, as far as it reads. |
| ConnPair.InOrderFromEvents | conpair/conpair.go:46-64 | The same told from the events alone: a run from the start delivers in order if and only if nobody changes, between the hand-over of a buffer and its read, a part of it that the read takes. |
| ConnPair.DoWrite | conpair/conpair.go:56-64 | A write of the connection object is the write event of the runs. |
| ConnPair.DoRead | conpair/conpair.go:46-55 | A read of the connection object is the read event of the runs. |
| ConnPair.NoInterference | conpair/conpair.go:32-64 | What a direction comes to in a run is what it comes to without any of the other direction's writes and reads. |
| ConnPair.ChangedInTransit | conpair/conpair.go:60 | A buffer changed after the write arrives changed. |
| RelayAgent.NewRelayAgent | dhcpv6relay/relay.go:70-108 | A new agent is set up by its modifiers, in order. |
| RelayAgent.LastModifierCounts | dhcpv6relay/relay.go:88-108 | Of the modifiers of one kind the last counts; they do not disturb each other. |
| RelayAgent.AgentFor | sched.go:814-819 | The agent of a client has the unspecified link address, the client's link-local address as peer, and the client's relay options. |
| RelayAgent.AgentForwards | dhcpv6relay/relay.go:129-153 | Wire round trip: what the server decodes is a Relay-forward with hop count 0, the agent's addresses and options in order, and the client's message byte for byte; a packet is cut to 1500 bytes first, and nothing is sent exactly if what is left is no message or has no client id. |
| RelayAgent.Agent.RecvAccess | dhcpv6relay/relay.go:114-159 | The loop sends a Relay-forward for each client message that decodes and has a client id, and nothing else. |
| RelayAgent.Agent.RecvNetwork | dhcpv6relay/relay.go:161-197 | The loop delivers what the packets before the first crash hold. |
| RelayAgent.DeliversExactly | dhcpv6relay/relay.go:176-195 | A Relay-reply delivers the data of its first Relay Message option, byte for byte; other relay messages are dropped. |
| RelayAgent.DropsExactly | dhcpv6relay/relay.go:176-184 | What is no Relay-reply is dropped. |
| RelayAgent.CrashExactly | dhcpv6relay/relay.go:185-191 | The crashing packets are exactly the Relay-reply messages without a Relay Message option. |
| RelayAgent.EmptyReplyCrashes | dhcpv6relay/relay.go:185-191 | A Relay-reply without any option crashes the agent. |
| RelayAgent.EncodeAllAt | dhcpv6relay/relay.go:110-197 | A direct connection delivers every reply of the server, in order; this is what the relay is compared with. |
| RelayAgent.RelayIsTransparent | dhcpv6relay/relay.go:110-197 | For every server function that fits: one client message comes back through agent, server and agent as the datagrams the server returns directly, or is dropped if it has no client id. |
| Pipeline.RunKeeps | dhcpv6relay/relay.go:110-197 | On a line of queues what is still to come out never changes but by a write, for every interleaving and any stages. |
| Pipeline.RunLaw | conpair/conpair.go:11 | What has been read is a prefix of the outcome, the queues keep their bounds, and a crash is due to the first item that the returning stage does not survive. |
| Pipeline.RunEnd | dhcpv6relay/relay.go:110-197 | A line that cannot move without a write has crashed, exactly if some answer crashes it, or has delivered everything. |
| Pipeline.RunsDrain | dhcpv6relay/relay.go:110-197 | Without writes a line drains in a known number of hops. |
| RelayLine.Transparent | sched.go:808-819 | Relay transparency over every interleaving of client, agent and server: no crash, always a prefix of the direct sequence, and all of it once the line is quiet. |
| Dialv6.BuildSolicit | sched.go:1037-1069 | Adds the options one by one; the result has type Solicit, 1 on the wire, and the given transaction id, and is the Solicit of the laws below. |
| Dialv6.SolicitCarries | sched.go:1037-1069 | A Solicit can be sent, always has a client id, and carries for each code the needed fresh IA or else the option set last. |
| Dialv6.SolicitDefaults | sched.go:1037-1069 | Under a code that nothing is configured for, a Solicit carries the DUID, a request for the options 23 and 24, an elapsed time of 0, the needed IAs with IAID 0 and 1, and nothing else. |
| Dialv6.SolicitStarts | sched.go:1057 | Its first four bytes are 1 and the transaction id. |
| Dialv6.NewRequestFromAdv | sched.go:1070-1124 | Adds the options one by one; fails exactly if the message is no Advertise or names no client or no server; the result has type Request and the given transaction id. |
| Dialv6.RequestStarts | sched.go:1082 | The first four bytes of a Request are 3 and the transaction id. |
| Dialv6.RequestEchoes | sched.go:1070-1124 | A Request carries the first client id, server id, IA_NA, IA_PD and vendor class of the Advertise, and no other option of it. |
| Dialv6.Dial | sched.go:403-498 | The dial over any network, with every way it can end, is two exchanges with the Request in between. |
| Dialv6.EndsExactly | sched.go:437-498 | How a dial ends, case by case: no answer, a bad one, a crash, no Request, or the lease of the Reply. |
| Dialv6.FirstMatchExactly | sched.go:437-489 | What an exchange returns is the first reply of the awaited type with its transaction id. |
| Dialv6.NoMatchExactly | sched.go:437-489 | It fails exactly if no reply matches. |
| Dialv6.PassesExactly | sched.go:408-421 | An answer passes if and only if its first IA_NA holds an address and its first IA_PD a prefix, where these are needed. |
| Dialv6.HoldsExactly | sched.go:411-417 | An IA holds an address or prefix if and only if it is twelve bytes and then options, one of which is that. |
| Dialv6.LeaseHolds | sched.go:408-421 | A lease is a Reply to the Request with an address and a prefix where these are needed. |
| Dialv6.PanicsExactly | sched.go:408-421 | A dial crashes if and only if the first matching Advertise, or the first matching Reply it gets to, lacks an IA that is looked into. |
| Dialv6.EmptyAdvertiseCrashes | sched.go:408-421 | An Advertise without options crashes exactly the dials that need an address or a prefix. |
| Dialv6.DialThroughRelay | sched.go:437-489 | A dial through the relay ends exactly as the direct dial, with the same lease. |
| RelayedDial.DialOverLine | sched.go:437-489 | A dial over the concurrent line of client, agent and server ends as the direct dial in every interleaving, as soon as the awaited answers are read or nothing moves any more. |
| Dialv6.ReleaseNeedsIds | lease.go:207-208 | A Release can be made exactly from a Reply that names client and server. |
| Dialv6.BareLeaseHasNoRelease | lease.go:207-208 | A Reply without a server id that passes the checks is accepted as a lease, and has no Release. |
| Dialv6.ReleaseGivesBack | lease.go:201-217 | A Release names client and server and gives back every IA of the lease, in order, and nothing else of it. |
| Dialv6.ReleaseStarts | lease.go:202-206 | Its first four bytes are the given type and the transaction id. |
| Dialv6.GetAllFinds | lease.go:210-215 | The IAs given back are all options of the Reply with the code, and no others. |

## Left out

- Template.GenerateOne: templates with a '%' are not modelled, because the program hands the template to a formatter that would read it as a verb.
- TagSpace.PositionExact: a VLAN step or MAC step beyond 63 bits, which the program's conversion would make negative, is not modelled; steps are natural numbers. Start tags are taken to be below the tag base.
- ClientId.SameTextUpToEtherType: the size of a layer-2 key and its value for an empty slot (0xFFFF) belong to a library that is not part of this model; any number of slots is allowed.
- RelayAgent.RelayIsTransparent: messages that do not fit 1500 bytes are excluded; what the agent does to a reply that is cut short depends on where the cut falls.
- RelayLine.Transparent: the agent takes a packet from the network and writes it to the pair in one step, so one more packet may be in its hands than the queues show. Write errors of the network are not modelled.
- Dialv6.SolicitCarries: option bodies are bytes; the fixed bodies of the elapsed-time and option-request options and of fresh IAs are written out, and the library's way of setting an option (in place of the first with the same code) is assumed.
- RunOutcome.WholeRun: a panicking goroutine runs its deferred calls before the program dies; here it dies at once. `Add` on a WaitGroup and the `go` after it are one step. A client's index stands for its id. Whether a DHCPv6 server leaves out IAs is a parameter of a run, not tied to the messages of Dialv6 step by step.
- FlappingProof.FlappingHistory: that DHCPv6 answers carry the IAs and ids looked into is an assumption about the server; the program does not check it.
- FlappingEnd.FlappingEnds: a failure to make the clients for releases, after which `run` returns without closing the channel, is not modelled.
- RelayedDial.DialOverLine: the messages are sent once; retries of the DHCPv6 client library are not modelled.
- The operations of the libraries myaddr and etherconn that are not shown (addition on MACs and VLAN stacks with an error on overflow, clone and overwrite of tags) are implemented here as assumed. The number of VLAN ids is a parameter.
- threeRAll, the driver of release, renew and rebind runs (sched.go:187-288): it does not wait for its goroutines unless a dialing client exists, so the close protocol is proved for DORA runs only.
- Loading and encoding of lease files; the saved file is the map itself.
- Raw sockets, XDP, netlink, signals, flags and the configuration file.
- Sleeps, intervals and random delays: any scheduling.
- The moving average of dial times, used for display only.
- DHCPv4 message building and the text form of DHCPv4 options; NDPProxy and sendRS.
- Close and deadlines of the packet pair.
- Reading a custom option gives a pointer where printing one expects a value (conf.go:251, conf.go:285); the model has one kind of option.
- `init` empties the list of excluded VLANs before it reads it (conf.go:172-178); the allocator takes the list as a parameter.
