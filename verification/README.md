# NetCheck, modelled and verified

A Dafny 4.11 model of the concurrent and numerical core of the NetCheck network toolkit. `dafny verify dfyconfig.toml` checks all of it.

| file | models |
|---|---|
| `Pool.dfy`, `PoolTheorems.dfy` | the bounded worker pool that `portscan.Scanner.Run`, `tcp.BatchCheck` and `udp.BatchCheck` share |
| `Discover.dfy` | `discover.Discoverer.Run`: the same pool with its three-exit worker body, refined to the plain pool, and composed with the enumeration |
| `PortScan.dfy` | the TCP scans: the same pool with `tcp.Checker.Run` and its own context check inside the worker, refined to the plain pool |
| `Addresses.dfy`, `IpNet.dfy`, `Cidr.dfy` | `incIP`, the mask test, the library's `IPNet.Contains` and the CIDR enumeration of `discover` and `utils` |
| `Summary.dfy`, `Ping.dfy`, `Utils.dfy`, `HopStats.dfy` | the summaries that sort: `ping.processResult`, `utils.Stats`, `mtr.calculateStats` |
| `Tcp.dfy`, `Monitoring.dfy`, `TcPing.dfy`, `Agreement.dfy` | the summaries that fold, the monitor's log and stream, and the agreement of them all |
| `Mtr.dfy` | the cycle/TTL loop of `mtr.MTR.Run`, its cancellation and its report |
| `Dns.dfy` | the fan-out and merge of `dns.Resolver.Run` |
| `Arithmetic.dfy`, `Folds.dfy`, `Wrappers.dfy` | products, quotients and powers of two; sums over sequences; `Option` |

How it is modelled:

- Goroutines are step systems. A run is a list of labels that can be executed one after the other, so a statement about every list of labels is a statement about every schedule, every moment of cancellation and every outcome of the probes. Go's run-time faults (send on a closed channel, second close, negative WaitGroup counter, unlocking a free mutex) are explicit states. In the pools and the DNS fan-out they are proved unreachable; in the monitor they are reached exactly by a second `Stop`. In the pools a full channel blocks its sender, and it is proved that none is ever full when there is something to send.
- Sequential code is methods with loops over arrays and fields, each tied to a specification function about which the lemmas are proved. What such a function computes is proved in turn over its inputs alone: sums over the samples, positions in a list, replies of the network.
- The network, name resolution, clocks and the context are oracles: functions from what is asked to what comes back, with nothing assumed about them.
- Durations are integer nanoseconds without a bound. The program sums deviations in `float64` and truncates the quotient; that is exact while the sum is below 2^53, and the model is the exact value. Division of durations truncates towards zero as in Go.
- Addresses are big-endian byte sequences of any length; prefixes are written as in section 3.1 of RFC 4632.

Where the program does not do what one may expect of it, the exact condition is proved:

- A cancelled scan or discovery returns what it has with a nil error. The answer is complete in every run exactly when there is a worker or nothing to do, cancellation excluded, and exactly when there is nothing to do otherwise (`PoolTheorems.CompleteIff` and `PoolTheorems.CompleteDespiteCancelIff` for the plain pool, `Discover.DCompleteIff` and `Discover.DCompleteDespiteCancelIff` for discovery).
- A cancelled TCP scan can report a port as timed out that was never dialled. Some run does so exactly when there is a port and a worker (`PortScan.NeverTimesOutIff`).
- The enumeration of a block ends exactly when the prefix is not empty or the address is an IPv6 one (`Cidr.LoopStopsIff`).
- The library test that ends the enumeration takes an IPv4-mapped address for an IPv4 one, so an IPv6 block that has those addresses properly inside it is listed up to `::ffff:0:0` only. The list is the hosts of the block exactly when the block is not one of these (`Cidr.ListedAreTheHostsIff`), and discovery reports each host once exactly when, besides, there is a worker (`Discover.HostsReportedIff`).
- Loss is a percentage exactly when no more replies were counted than requests sent (`LossIsPercentageIff`).
- The live MTR display uses a fixed threshold of five seconds and agrees with the final report on loss exactly when no sample lies between the two thresholds (`LiveLossAgreesIff`).
- MTR creates its hops in the first cycle only. If that could not listen the report is empty; the report has every TTL that was probed exactly when it could, or no cycle that could got as far as its first probe (`ReportCoversProbesIff`).
- `Monitor.Stop` stops nothing: no loop reads the channel it closes, and every run is possible without the calls of it (`StopStopsNothing`). The monitor faults exactly when it is called twice while running (`FaultsIff`).
- The closing statistics of the TCP ping divide by zero exactly when there were probes and none got through (`TcPing.Run`).
- The minima of `tcp` and `monitoring` start from the timeout and from an hour, and are right exactly when the true minimum is not above that (`SameSamplesSameFigures`); `tcp` records a failure as 0 and so takes a dial that took no measurable time for one (`Tcp.Run`).
- The documentation of host discovery (`README.md` line 51 and `docs/api.md` line 37 of the repository) speaks of hosts that are down. The code reports Alive or Unknown, never Down; the model follows the code (`ProbeHost`).

## Model

| member | source | states |
|---|---|---|
| Pool.RunKeepsInv | internal/portscan/portscan.go:82-137 | one invariant over channels, WaitGroup, closer, order of dispatch and departures holds in every state of every run |
| PoolTheorems.ChannelsAreSafe | internal/portscan/portscan.go:82-132 | no schedule faults; queues stay within capacity; every worker about to send finds an open channel with room; the WaitGroup counts the live workers; the result channel closes only after the last worker has gone |
| PoolTheorems.JobsAreConserved | internal/portscan/portscan.go:86-137 | in every reachable state each copy of each job is unsent, queued, held, answered, collected or dropped; jobs are dispatched in input order; drops need a cancellation and number at most one per worker |
| PoolTheorems.Progress | internal/portscan/portscan.go:88-137 | no deadlock: until the call returns some step other than cancelling is enabled, with any number of workers and cancelled or not |
| PoolTheorems.StepLowersRank | internal/portscan/portscan.go:82-137 | every step, cancelling included, lowers a natural-number rank |
| PoolTheorems.RunsAreBounded | internal/portscan/portscan.go:82-137 | no run is longer than 5 steps per job, 2 per worker and 8 more |
| PoolTheorems.StuckMeansReturned | internal/portscan/portscan.go:134-147 | a run that can go no further has closed its channels and returned |
| PoolTheorems.CanFinish | internal/portscan/portscan.go:124-147 | every reachable state can be completed without cancelling |
| PoolTheorems.ReturnedState | internal/portscan/portscan.go:129-137 | on return all workers are gone, and jobs not answered were dropped after a cancellation or left in the channel by a cancellation or for want of workers |
| PoolTheorems.CancelledScan | internal/tcp/tcp.go:148-173 | on return, cancelled or not, collected, dropped and still queued jobs together are the input as a multiset |
| PoolTheorems.ExactlyOnce | internal/tcp/tcp.go:137-177 | uncancelled, with at least one worker, the answered jobs are a permutation of the input, duplicates included |
| PoolTheorems.NoWorkersNoResults | internal/udp/udp.go:256-290 | a call without workers that returns does so empty-handed, with the whole input left in the job channel; that it can always return is in the row for CanFinish |
| PoolTheorems.CompleteIff | internal/portscan/portscan.go:86-147 | uncancelled runs all give a complete answer if and only if there is a worker or an empty input |
| PoolTheorems.CompleteDespiteCancelIff | internal/portscan/portscan.go:91-95 | with cancellation allowed, all runs give a complete answer if and only if the input is empty |
| PoolTheorems.OneWorkerKeepsOrder | internal/udp/udp.go:256-286 | one worker answers in input order: a prefix at any time, all of it when an uncancelled run returns |
| PoolTheorems.CollectedAsSent | internal/portscan/portscan.go:113-137 | what is collected is what the workers sent, in the order of the sends, each value with the job it was sent for; on return nothing is left in the channel |
| PoolTheorems.RunPool | internal/portscan/portscan.go:79-148 | under any scheduler the pool takes the run that the scheduler chooses and returns what was sent in it: a sub-multiset of the input, all of it with a worker and a scheduler that does not cancel |
| Discover.ProbeHost | internal/discover/discover.go:76-108 | the worker body sends exactly once: alive by ICMP, else alive by the first answering port in list order, else unknown |
| Discover.CorrectMeans | internal/discover/discover.go:76-108 | what right means, case by case: the reverse name; Alive by ICMP if the host echoes; else Alive by the first port of the list that can be dialled; else Unknown without a discovery |
| Discover.StepRefines | internal/discover/discover.go:65-111 | each step of the detailed worker is one step of the plain pool or none |
| Discover.RunRefines | internal/discover/discover.go:61-126 | every detailed run is a plain run with the same channels and results, and everything sent is right |
| Discover.DProgress | internal/discover/discover.go:69-126 | no deadlock in the detailed system: until the call returns some step other than cancelling is enabled |
| Discover.DCanFinish | internal/discover/discover.go:113-126 | every reachable state of the discovery can be completed without cancelling |
| Discover.DRunsAreBounded | internal/discover/discover.go:61-126 | a bound on the length of every run in addresses, workers and ports |
| Discover.DiscoveryIsSafe | internal/discover/discover.go:61-121 | nothing faults and each of the three sends finds an open channel with room |
| Discover.PartialReport | internal/discover/discover.go:113-126 | at any time, cancelled or not, each result collected is right, about a host of the block and the only one about it |
| Discover.EachHostReportedOnce | internal/discover/discover.go:53-137 | with at least one worker and any uncancelled schedule the report names each listed address exactly once and nothing else, with the right state; these are the host addresses of the block unless it is cut off |
| Discover.DCompleteIff | internal/discover/discover.go:65-126 | uncancelled discoveries all report the whole list if and only if there is a worker or an empty list |
| Discover.DCompleteDespiteCancelIff | internal/discover/discover.go:70-74 | with cancellation allowed, all discoveries report the whole list if and only if it is empty |
| Discover.HostsReportedIff | internal/discover/discover.go:53-154 | from the block to the report: all uncancelled discoveries name each host address once and nothing else if and only if there is a worker and the block is not cut off |
| Discover.OneWorkerReportsInOrder | internal/discover/discover.go:65-126 | one worker reports the hosts in ascending order |
| Discover.Discover | internal/discover/discover.go:61-126 | under any scheduler the concurrent part takes the run that the scheduler chooses and returns its report; with a worker and a scheduler that never cancels it is complete as in the row for EachHostReportedOnce |
| Discover.Run | internal/discover/discover.go:53-137 | from the parsed block to the report: malformed text is refused, otherwise the report is that of the run the scheduler chooses on the list of the block; with a worker and a scheduler that never cancels it has every listed address, and every host unless the block is cut off, exactly once |
| PortScan.CheckOnce | internal/tcp/tcp.go:49-125 | the checker as the worker calls it: TIMEOUT exactly if its check sees the context done, OPEN exactly if it does not and the dial connects in measurable time, with the latency of the dial then and 0 otherwise |
| PortScan.PRunRefines | internal/portscan/portscan.go:82-137 | every run of the scan with the checker inside is a run of the plain pool with the same channels and results |
| PortScan.PProgress | internal/portscan/portscan.go:88-137 | no deadlock in the scan, dials and second check included |
| PortScan.PRunsAreBounded | internal/portscan/portscan.go:82-137 | a bound on the length of every run in ports and workers |
| PortScan.PartialScan | internal/portscan/portscan.go:90-119 | at any time, cancelled or not, what is collected is part of what dials and late checks made; ports are late only after a cancellation, at most one for each worker |
| PortScan.PortsAreAccountedFor | internal/portscan/portscan.go:90-137 | on return, cancelled or not, the report is the verdict of each dial and a timeout for each late port, so no dial is lost; each requested port was dialled, late, dropped or left in the channel |
| PortScan.EachPortByItsOwnDial | internal/portscan/portscan.go:100-147 | uncancelled, with at least one worker, each requested port is dialled as often as requested, the report is what those dials said, and everything in it is open with a latency or closed without |
| PortScan.ReportByPort | internal/portscan/portscan.go:100-119 | on return, port by port: as many open with a given latency as dials of the port that connected with it, as many closed as its other dials, as many timed out as checks of it that came too late |
| PortScan.NeverTimesOutIff | internal/tcp/tcp.go:59-65 | no run reports a timeout if and only if there are no ports or no workers; otherwise there is a run that reports the first port as timed out without dialling it |
| Addresses.IncIP | internal/discover/discover.go:156-163 | incrementing in place from the last byte leaves the successor of the old bytes |
| Addresses.SuccessorValue | pkg/utils/utils.go:58-65 | the successor is the big-endian value plus one modulo 256 to the number of bytes |
| Addresses.MaskedValue | internal/discover/discover.go:145 | masking rounds the value down to a multiple of the block size |
| Addresses.BlockIsInterval | internal/discover/discover.go:140-145 | the bytewise mask test holds exactly for the 2^h values from the network address on |
| IpNet.ContainsIff | internal/discover/discover.go:145 | the library's Contains, which cuts IPv4-mapped addresses down to four bytes (section 2.5.5.2 of RFC 4291), is the bytewise test with the mapped addresses left out unless the network address is one of them |
| IpNet.MappedIsInterval | internal/discover/discover.go:145 | the IPv4-mapped addresses are the 2^32 values from ::ffff:0:0 on |
| Cidr.LoopTest | internal/discover/discover.go:145 | after k increments, wrapping round if need be, the loop test holds exactly while k is below the number of addresses that pass: the block size, or less if the block is cut off |
| Cidr.Enumerate | internal/discover/discover.go:144-149 | the loop terminates with all addresses that pass the test in ascending order, each in a fresh array of its own that later increments leave alone |
| Cidr.ParseCIDR | internal/discover/discover.go:139-154 | malformed text is an error; otherwise the addresses that pass are listed, without their two ends when there are more than two |
| Cidr.ListsExactly | pkg/utils/utils.go:47-55 | the list holds an address exactly if it is in the block, below the cut-off, and not the first or last of more than two |
| Cidr.ListedAreTheHostsIff | pkg/utils/utils.go:47-55 | that is exactly the hosts of the block (in it, and neither network nor broadcast address when h >= 2) if and only if the block is not cut off |
| Cidr.ListInNumbers | internal/discover/discover.go:144-153 | unless the block is cut off: with h host bits the list is the 2^h values from the address rounded down to a multiple of 2^h on, without the first and the last of them if h >= 2 |
| Cidr.EachListedOnce | pkg/utils/utils.go:46-55 | each of them once |
| Cidr.LoopStopsIff | internal/discover/discover.go:145 | the enumeration ends if and only if the prefix length is at least 1 or the address is an IPv6 one |
| Summary.MeanAndJitter | internal/ping/ping.go:185-196 | the two loops compute the truncated mean and the truncated mean absolute deviation from it |
| Summary.SummaryIgnoresOrder | internal/ping/ping.go:178-196 | minimum, maximum, mean and jitter do not depend on the order of arrival |
| Summary.JitterBound | internal/mtr/mtr.go:216-233 | twice the jitter is at most the spread, for all integers, truncation of mean and quotient included |
| Summary.JitterBoundIsSharp | internal/mtr/mtr.go:228-233 | that bound is attained |
| Summary.SummaryBounds | pkg/utils/utils.go:80-97 | min <= avg <= max and the bounds on jitter |
| Summary.Figures | pkg/utils/utils.go:76-97 | minimum and maximum are samples and bound all of them; the mean is the sum of the samples over their number, the jitter the sum of their distances from the mean over their number, both truncated |
| Summary.GoDivTruncates | internal/ping/ping.go:189 | what truncated means, for sums of either sign |
| Ping.LossIsShare | internal/ping/ping.go:198-200 | loss times sent is 100 times the requests not answered |
| Ping.ProcessResult | internal/ping/ping.go:169-203 | the report summarises the round trip times as they arrived; the caller's slice is left sorted and is the one reported; loss by sent and received |
| Ping.SummarisingTwice | internal/ping/ping.go:170-180 | the sorted slice is a permutation, the same whatever the order of arrival, and can be summarised again |
| Ping.LossIsPercentageIff | internal/ping/ping.go:198-200 | a loss that is the share of unanswered requests lies in [0,100] if and only if received <= sent |
| Utils.Stats | pkg/utils/utils.go:74-99 | sorts the caller's slice, summarises it, and reports loss 100 if it is empty and 0 otherwise |
| HopStats.CalculateStats | internal/mtr/mtr.go:186-236 | the figures of a hop are those of its samples below the threshold, with the empty and the all-lost cases, and the samples are left alone; what those figures are is in the next two rows |
| HopStats.HopFigures | internal/mtr/mtr.go:198-233 | with a sample below the threshold: minimum and maximum are such samples and bound them, loss, mean and jitter are the truncated quotients of the sums over them, min <= avg <= max and twice the jitter is at most the spread |
| HopStats.HopWithoutReplies | internal/mtr/mtr.go:186-214 | sent counts all samples; last is the last sample or 0 if that is lost; without samples the figures are the threshold, with lost ones only they are 0, the loss 100 in both cases |
| HopStats.ThresholdMonotonic | internal/mtr/mtr.go:162-226 | a higher threshold gives the same minimum, no smaller maximum and mean and no larger loss |
| HopStats.LiveLossAgreesIff | internal/mtr/mtr.go:242-247 | live and final loss agree if and only if no sample lies between the thresholds; with a timeout below five seconds a failure makes the live loss too low |
| Mtr.Run | internal/mtr/mtr.go:57-153 | whatever listens, answers or cancels, the report has the hops the first cycle reached, numbered from 1 without a gap, each with the figures of exactly the probes made for it; an error exactly if a check saw the context done |
| Mtr.Finalize | internal/mtr/mtr.go:155-174 | every hop gets the figures of its samples in place, and the cycle count is the configured one |
| Mtr.SentColumn | internal/mtr/mtr.go:71-150 | the sent counts fall by at most one from first hop to last; uncancelled with the first cycle listening, there is a hop for every TTL and each was sent one probe in each cycle that listened |
| Mtr.SentFalls | internal/mtr/mtr.go:84-119 | counts do not grow with the TTL, differ by at most one, and differ only if the run was stopped |
| Mtr.LossIsUnanswered | internal/mtr/mtr.go:113-119 | the reported loss of a hop is the share of its probes not answered before the timeout, failures and late answers alike |
| Mtr.ClearIff | internal/mtr/mtr.go:71-89 | what it is that Mtr.Run reports with its error: a check of a cycle or of a TTL of a listening cycle that sees the context done |
| Mtr.VisitedIff | internal/mtr/mtr.go:71-89 | a probe is made exactly if its cycle listens and no check of the context before it, in this cycle or an earlier one, sees it done |
| Mtr.ReportedExtremes | internal/mtr/mtr.go:109-119 | the minimum and maximum of a reported hop are times of replies that came before the timeout, and bound all of these |
| Mtr.ReportedMeans | internal/mtr/mtr.go:109-119 | its mean is that of these times and its jitter their mean distance from it, truncated |
| Mtr.ReportedRest | internal/mtr/mtr.go:109-119 | its sent column counts the probes made, last is the time of the last of them or 0 if that was late or failed, and a hop with no reply in time shows a loss of 100 and zeros |
| Mtr.LiveDisplayHidesFailures | internal/mtr/mtr.go:238-244 | with a timeout below five seconds the live display understates the loss of every hop that has had a failure |
| Mtr.ReportCoversProbesIff | internal/mtr/mtr.go:78-82 | a report has every TTL that was probed if and only if the first cycle listens, no TTL is allowed, or no listening cycle gets past the context checks to its first probe; without the first cycle it is empty |
| Tcp.Run | internal/tcp/tcp.go:49-125 | TIMEOUT exactly if a check saw the context done or there was nothing to do; OPEN exactly if a dial succeeded in measurable time; samples, extremes and mean of those dials |
| Tcp.SamplesAreDials | internal/tcp/tcp.go:73-109 | the samples are the latencies of the dials that connected in measurable time, all of them, in the order of the dials |
| Monitoring.Monitor.Start | internal/monitoring/monitoring.go:69-106 | the fields of the monitor, its channel and its reader go through the states of the step system, one statement of the goroutine at a time |
| Monitoring.ControlIsKept | internal/monitoring/monitoring.go:73-103 | running until the loop is left and reset before the channel is closed; the loop is left only on a seen cancellation or with the count reached |
| Monitoring.FaultsIff | internal/monitoring/monitoring.go:108-112 | the monitor faults if and only if Stop is called twice while it is running; its own channel is closed once and never sent on after that |
| Monitoring.StopStopsNothing | internal/monitoring/monitoring.go:108-112 | every run is possible without its calls of Stop, with the same log, stream and control |
| Monitoring.GoroutineEnds | internal/monitoring/monitoring.go:80-103 | with a count the goroutine takes at most 5 steps for each check and 4 more; until it has ended it can always move, whether or not anyone reads |
| Monitoring.CancelledCanEnd | internal/monitoring/monitoring.go:74-88 | once the context is done the goroutine can end from wherever it is, in at most seven steps and without another check, with the channel closed and running reset |
| Monitoring.StreamIsPartOfLog | internal/monitoring/monitoring.go:90-98 | received followed by buffered is a subsequence of the log but for a point not offered yet, the buffer holds at most 100, and a point is missing only if the buffer was full when it was offered |
| Monitoring.ShortLogIsStreamed | internal/monitoring/monitoring.go:95-98 | a log of at most 100 points is streamed in full |
| Monitoring.LogIsComplete | internal/monitoring/monitoring.go:80-102 | the log is every check but the one in hand, and at most the count of them; out of the loop it is every check, exactly the count of them unless cancelled |
| Monitoring.Monitor.Result | internal/monitoring/monitoring.go:167-209 | totals, uptime, mean and extremes of the available points, and what is left when there are none |
| Monitoring.AvailableArePoints | internal/monitoring/monitoring.go:183-196 | the latencies those figures are of are the ones of the available points, all of them, in order |
| TcPing.Run | cmd/netcheck/main.go:242-304 | the running figures are those of the successful probes; the closing division faults exactly if there were probes and none succeeded |
| TcPing.ConnectedAreProbes | cmd/netcheck/main.go:282-300 | the latencies those figures are of are the ones of the probes that got through, all of them, in order |
| Agreement.SameSamplesSameFigures | internal/tcp/tcp.go:97-122 | on the same surviving samples in any order the folds of tcp, monitoring and the TCP ping give the mean and maximum of the sorting summaries, and the minimum exactly when their starting values allow |
| Dns.RunKeepsInv | internal/dns/dns.go:152-167 | no fault, mutual exclusion, and a list made of whole contributions followed by part of the present writer's, in every state of every run |
| Dns.MergeIsConcatenation | internal/dns/dns.go:152-174 | for every interleaving the records are the value lists of exactly the successful lookups, each contiguous and in its own order; the error is set exactly if no lookup brought a value |
| Dns.EveryValueOnce | internal/dns/dns.go:161-165 | each value of each successful lookup has a place of its own in the result, with the type of the lookup; the values of one lookup stand in a row in their order, the rows do not overlap and together are the result |
| Dns.Progress | internal/dns/dns.go:152-169 | no deadlock on mutex or WaitGroup |
| Dns.RunsAreBounded | internal/dns/dns.go:152-169 | every run is finite, with a bound in lookups and values |

## Left out

- `net.ParseCIDR`, `IP.String` and the text of addresses: library code; the model starts from the parsed address and prefix.
- Cidr.ParseCIDR: requires a prefix length of at least 1 of an IPv4 address, because with 0 the program does not terminate (Cidr.LoopStopsIff).
- Discover.Run: the same requirement, for the same reason.
- The memory that the list of a wide block takes.
- Sockets, dialling, ICMP messages, name resolution, timers and sleeps: oracles.
- The host name and IP columns of an MTR hop, and the lines printed while it runs.
- `ping.Run` apart from `processResult`: its receiver does not match replies to requests and its channel has two closers.
- `udp.Checker.Run`: its outcome depends on operating system timing. A UDP scan is covered by the theorems about the plain pool.
- Starting the same monitor twice.
- `Monitor.check`, traceroute, TLS and HTTP checks, configuration, service names, counting of open ports, exports, alerts, metrics, the web pages and the command line: short branches, templates or library wrappers.
- Rounding of `float64` beyond the exactness stated above, and overflow of 64-bit durations.
