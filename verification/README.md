# BeeQoS verification

BeeQoS shares the bandwidth of a host among pods and process flows. An eBPF program
stamps every packet with an earliest departure time and measures the rate of its
slot; a user-space allocator redistributes the requested rates once per interval;
an ID manager and RPC handlers decide which packet belongs to which slot. An older
tool, `bwmcli`, throttles offline traffic by a water line on online traffic, and the
`dhcifb` driver queues ingress packets. This project models these parts in Dafny and
proves what they guarantee over whole runs.

Each part is given twice: as functions on values (one step of the code as a
transition), about which the theorems are proved, and as classes and methods that
work in place, with the loops, counters, flags and early exits of the source, proved
to compute those functions.

| files | part |
|---|---|
| Throttle.dfy | records shared by the eBPF program, allocator and daemon |
| Pacer.dfy | earliest-departure-time pacing and the theory of departure schedules |
| Edt.dfy, EdtRuns.dfy, Average.dfy | `tc_edt.c`: one packet, whole runs of a slot, the averaged rate |
| Allocator.dfy, AllocatorTheorems.dfy, AllocatorSharing.dfy, AllocatorDaemon.dfy | `daemon_proc.go`: a round defined by counting, its theorems, who gets what, the loops in place |
| Composed.dfy | allocator and pacers together |
| Ifb.dfy, IfbDevice.dfy | `dhcifb.c`: interleaved atomic steps, and the whole calls |
| Watermark.dfy, WatermarkRuns.dfy | `bwm_tc.c` with the settings of `bwmcli.c` |
| Names.dfy, IdManager.dfy, IdTheorems.dfy | flow names and id words, the ID manager and its bijections |
| Flows.dfy, FlowTheorems.dfy, PodTheorems.dfy | the RPC handlers, and the agreement of the kernel maps with flows and with pods |
| Lifetime.dfy | a restart over pinned maps, then calls, rounds of the allocator and traffic in any order |
| Mpls.dfy | the MPLS label stack codec (section 2.1 of RFC 3032) and its tunnel attribute |

`dafny verify dfyconfig.toml` checks the whole project.

Main results:

- A round of the allocator never promises more than the total bandwidth (or what
  phase 1 left, if more) plus one byte per second for each grant, although divisor,
  flag and counters change inside the loop (`RoundConservation`). It gives everything
  away if the table is in order, and for remainders above the roundings only then
  (`WorkConservation`, `WorkConservationExactly`). No priority class gains more than its
  share and roundings, and none less when the instances at their low rate are the ones
  served, the early exit included (`ClassGainAtMost`, `PrioritySplit`). An instance that
  keeps demanding is given its low rate in time (`GuaranteeReached`), and while phase 1
  leaves nothing over exactly if a step of the pace or the floor can raise it before the
  first round (`ReachedExactly`).
- A slot's departures are one schedule, the earliest its requests allow, exactly when
  every re-initialisation in the run is harmless (`RunIsPacedExactly`,
  `SlotScheduleIsLeastExactly`), and then keep to the requested rate over any stretch
  and use it in full while backlogged (`SlotPacingBound`, `SlotBusyBound`). Steady
  traffic is measured at its rate (`SteadyTrafficMeasured`). Under every configuration a harmful one is reachable
  (`ResetBreaksPacing`).
- Together: in any span of time the host keeps to the requests under which the packets
  leaving it were stamped (`HostWindow`); once the departures booked before a round are
  over, the active instances keep to the cap of that round (`HostBandwidthBound`), and
  until then they may exceed it (`BacklogBreaksCap`).
- The driver queue is first in, first out, loses no packet and no wake-up, is bounded,
  drains, and drops exactly packets without an interface (`FifoAndConservation`,
  `NoLostWakeup`, `QueueBounded`, `TaskletDrains`, `DroppedAreUnserved`).
- Every interleaving of settings and packets keeps rates in range, and offline traffic
  is paced low exactly when the water line was reached (`SettingsStaySafe`,
  `PacedLowExactly`).
- Ids of pods and flows stay in bijection with their owners under concurrent calls
  (`IdsStayBijective`). From a restart over whatever the last daemon left pinned, through
  calls, rounds and traffic in any order, the kernel maps hold the live flows and, while
  pods keep addresses of their own, the live pods, and besides at most those leftovers
  (`FlowIndexAgreement`, `PodIndexAgreement`), and traffic of pods and flows is handled
  under their ids, priorities and configurations (`PodTrafficAgreement`,
  `FlowTrafficAgreement`).
- The MPLS attribute carries a label list there and back exactly when its length fits
  and all labels have 20 bits (`AttributeRoundTripExactly`).

Conventions: the kernel clock does not go backwards, and each reading of it is a
parameter; the ratio of the allocator is a fraction; an IPv4 address is its 32-bit
value and appears in names as its canonical dotted quad; what the cluster says of a
pod, parsed command-line numbers and the outcome of foreign calls are parameters.
A division by zero in an eBPF program yields zero (RFC 9669, section 4.1), so a packet
of a retired slot, whose req_rate the handlers clear, has no transmission time; the
bounds on bytes are about positive rates. Priorities are at most 2, as the annotation
parser and the command line enforce.

Where the code differs from what one may expect, the model follows the code:
`InsertProcessInfo` writes a flow's id to the pod map; pod ids reach 5999 while the
kernel maps have 5000 entries; a slot whose measured average has decayed to zero over a
long silence forgets its last departure; packets stamped under an older request leave
after a round has lowered it; the early exit of phase 2 can leave a class without its
share; a pace above both the floor and an instance's request, which the daemon accepts,
leaves that instance below its low rate while nothing remains; a configuration written
while a round is between reading and writing back is lost; keys that flows left before a
restart stay mapped, and their ids are given out again; a requested bandwidth that is
a multiple of 2^47 megabits wraps to rate zero; a failed pod annotation leaves a new id
allocated; a pod set again under another address leaves its old key mapped; an MPLS
attribute of 16383 labels or more has a length that does not fit its field.

## Model

| member | source | states |
|---|---|---|
| Allocator.ClipAboveMin | bwm/cmd/alg-daemon/algproc/daemon_proc.go:65-72 | the clipped value is at least the minimum exactly unless the maximum lies below the minimum and cuts |
| AllocatorTheorems.SeenPeriodIsIdle | bwm/cmd/alg-daemon/algproc/daemon_proc.go:111-126 | an instance is active in a round exactly when the kernel measured traffic in a sampling period the last round has not seen; any other keeps its request |
| AllocatorTheorems.StepIsPace | bwm/cmd/alg-daemon/algproc/daemon_proc.go:140-161 | phase 1 lowers an active instance by the pace-th part of its request, rounded down, or to the floor, if it uses less than the ratio; else raises it by that part, up to the low rate, and marks whether it got there; nothing else changes |
| AllocatorTheorems.FloorExactly | bwm/cmd/alg-daemon/algproc/daemon_proc.go:65-72 | phase 1 leaves an active instance below the floor exactly when its low rate is below the floor and caps the raise |
| AllocatorTheorems.RoundKeepsFloor | bwm/cmd/alg-daemon/algproc/daemon_proc.go:148-154 | no active instance ends a round below the floor if its low rate is not below it |
| AllocatorTheorems.RoundStaysPositive | bwm/cmd/alg-daemon/algproc/daemon_proc.go:140-161 | under a positive floor an active instance with any positive low rate ends the round with a positive request |
| Allocator.CountsAtNeed | bwm/cmd/alg-daemon/algproc/daemon_proc.go:217-218 | where a NEED instance is served the divisor, the NEED instances not passed over so far, is at least one |
| Allocator.CountsAtReached | bwm/cmd/alg-daemon/algproc/daemon_proc.go:223-225 | where a REACHED instance is served its class count and the sum of percentages are not zero |
| AllocatorTheorems.OneKindServed | bwm/cmd/alg-daemon/algproc/daemon_proc.go:207-228 | a NEED and a REACHED instance are never both granted bandwidth in one round, although the flag flips inside the loop |
| AllocatorTheorems.PassedOverExactly | bwm/cmd/alg-daemon/algproc/daemon_proc.go:208-218 | a NEED instance is due nothing exactly if it uses less than seven tenths of its request |
| AllocatorTheorems.GrantedFits | bwm/cmd/alg-daemon/algproc/daemon_proc.go:207-233 | however far the loop gets, the grants made add up to at most the remainder plus one for each grant |
| AllocatorTheorems.RoundConservation | bwm/cmd/alg-daemon/algproc/daemon_proc.go:170-233 | after a round the requests of active instances add up to at most the total bandwidth, or the phase-1 sum if larger, plus one for each grant; and never to less than the phase-1 sum |
| AllocatorSharing.ConservesExactly | bwm/cmd/alg-daemon/algproc/daemon_proc.go:230-232 | the early exit costs nothing: a round gives all away exactly when the loop without it would |
| AllocatorSharing.ServedExactly | bwm/cmd/alg-daemon/algproc/daemon_proc.go:206-233 | each instance gets its grant exactly as long as what was given before it leaves something over |
| AllocatorSharing.WorkConservation | bwm/cmd/alg-daemon/algproc/daemon_proc.go:199-233 | a round gives all bandwidth away if no NEED instance is served before another is passed over, or, when all are passed over, no REACHED one precedes them and every class in use has a REACHED instance |
| AllocatorSharing.WorkConservationExactly | bwm/cmd/alg-daemon/algproc/daemon_proc.go:199-233 | and only then, for every remainder above k*k*(k+1), k the NEED instances not passed over, or above ten times the square of the number of REACHED ones |
| AllocatorSharing.ClassGainAtMost | bwm/cmd/alg-daemon/algproc/daemon_proc.go:223-228 | in any round a class gains at most its share plus one for each of its instances |
| AllocatorSharing.PrioritySplit | bwm/cmd/alg-daemon/algproc/daemon_proc.go:199-233 | when every NEED instance is passed over, before any REACHED one, and every class in use has a REACHED instance, a class also gains at least its share less one for each instance of the others; with REACHED instances in all classes the shares are 10, 20 and 70 percent |
| AllocatorSharing.ShareIsPercentage | bwm/cmd/alg-daemon/algproc/daemon_proc.go:199-225 | the share of a class is its 10, 20 or 70 parts of the remainder among those of the classes in use, rounded down |
| AllocatorSharing.ClassCutOff | bwm/cmd/alg-daemon/algproc/daemon_proc.go:230-232 | the early exit can leave a class with nothing although its share is a whole unit |
| AllocatorSharing.PassingOverLeavesIdle | bwm/cmd/alg-daemon/algproc/daemon_proc.go:208-215 | a round on two instances that both demand more, of which one is passed over after the other was served, leaves part of the total unused |
| AllocatorTheorems.RequestsStayBounded | bwm/cmd/alg-daemon/algproc/daemon_proc.go:177-221 | with the total, the floor and the low rate at most b, a request of at most 2b + 1 is at most that after every round |
| AllocatorTheorems.RoundFitsIn64Bits | bwm/cmd/alg-daemon/algproc/daemon_proc.go:145-225 | for rates below 2^48 no 64-bit product, sum or conversion of a round overflows |
| AllocatorTheorems.DemandStep | bwm/cmd/alg-daemon/algproc/daemon_proc.go:151-158 | where the pace or the low rate is at most the larger of request and floor, one round of demand reaches the low rate or raises the request by at least one and stays so, whatever phase 2 grants |
| AllocatorTheorems.GuaranteeReached | bwm/cmd/alg-daemon/algproc/daemon_proc.go:140-161 | such an instance that keeps demanding is found at its low rate within LowRate - ReqRate rounds |
| AllocatorTheorems.NeverReached | bwm/cmd/alg-daemon/algproc/daemon_proc.go:150-158 | any other instance is at its low rate in no round while phase 1 leaves nothing over |
| AllocatorTheorems.ReachedExactly | bwm/cmd/alg-daemon/algproc/daemon_proc.go:140-161 | so while nothing is left over, demand is met in time exactly under that condition on the first table |
| AllocatorDaemon.FlagMeansAllPassedOver | bwm/cmd/alg-daemon/algproc/daemon_proc.go:195-197 | reached + down never exceeds the valid count, and the test on the counters holds exactly when every NEED instance was passed over |
| AllocatorDaemon.ClassCountsStep | bwm/cmd/alg-daemon/algproc/daemon_proc.go:183-191 | counting an instance moves one class counter at most, and no 16-bit counter wraps |
| AllocatorDaemon.PassOverStep | bwm/cmd/alg-daemon/algproc/daemon_proc.go:208-215 | passing an instance over takes one from a class counter that is not zero, and keeps counters and flag in step with the table |
| AllocatorDaemon.ClassCountIsReached | bwm/cmd/alg-daemon/algproc/daemon_proc.go:225-225 | once every NEED instance was passed over, a class counter is its number of REACHED instances |
| AllocatorDaemon.EdtProcData.LookupEdtProcData | bwm/cmd/alg-daemon/algproc/daemon_proc.go:111-126 | the loop over the batches records rates, zeroed for periods already seen, statuses and the number of active instances |
| AllocatorDaemon.EdtProcData.AllocatePhase | bwm/cmd/alg-daemon/algproc/daemon_proc.go:177-193 | the first loop computes phase 1 in place, with the remainder and all counters equal to counts over the resulting table |
| AllocatorDaemon.EdtProcData.AllocDivide | bwm/cmd/alg-daemon/algproc/daemon_proc.go:199-204 | the second loop adds the percentages of the classes in use |
| AllocatorDaemon.EdtProcData.ServeInstance | bwm/cmd/alg-daemon/algproc/daemon_proc.go:217-228 | the share taken from the running counters is the one defined by counting, for either kind of instance |
| AllocatorDaemon.EdtProcData.DistributePhase | bwm/cmd/alg-daemon/algproc/daemon_proc.go:206-233 | the last loop, with changing divisors, flag and early exit, computes phase 2 as defined by counting |
| AllocatorDaemon.EdtProcData.RunRound | bwm/cmd/alg-daemon/algproc/daemon_proc.go:163-235 | one pass of the endless loop turns the looked-up table into the round of that table |
| Pacer.DelayFitsIn64Bits | bwm/pkg/bpfgo/bpf/tc_edt.c:42 | the product of any 32-bit length and one second fits in 64 bits |
| Pacer.DelayExactly | bwm/pkg/bpfgo/bpf/tc_edt.c:42 | the transmission time is the length at the rate, rounded down to a nanosecond |
| Pacer.BusyBound | bwm/pkg/bpfgo/bpf/tc_edt.c:42-52 | while packets wait for each other only, the rate is used in full |
| Pacer.PacingBound | bwm/pkg/bpfgo/bpf/tc_edt.c:42-52 | bytes of a departure schedule keep to the rate times elapsed time, up to one rounding per packet, and departures never go back |
| Pacer.PacingBoundBetween | bwm/pkg/bpfgo/bpf/tc_edt.c:42-52 | the same between any two packets of the schedule |
| Pacer.LeastSchedule | bwm/pkg/bpfgo/bpf/tc_edt.c:36-52 | no schedule that honours the same timestamps and transmission times sends any packet earlier |
| Pacer.WindowBound | bwm/pkg/bpfgo/bpf/tc_edt.c:42-52 | all bytes of a schedule that depart within a span of time keep to the highest rate under which they were stamped, plus one packet |
| Edt.FirstHitIsFirst | bwm/pkg/bpfgo/bpf/tc_edt.c:219-258 | the first of the candidate keys that is mapped decides, and a packet that hits none belongs to the default stream |
| Edt.EdtMaps.EgressLookup | bwm/pkg/bpfgo/bpf/tc_edt.c:216-258 | egress classification asks for the pod, then the local server port, then the remote server port |
| Edt.EdtMaps.IngressLookup | bwm/pkg/bpfgo/bpf/tc_edt.c:275-317 | ingress classification asks for the pod, then the local server port, then the remote server port |
| Edt.EdtMaps.StatInit | bwm/pkg/bpfgo/bpf/tc_edt.c:13-19 | a slot is re-initialised in place, all other slots untouched |
| Edt.EdtMaps.StatisticsAndEdtPacket | bwm/pkg/bpfgo/bpf/tc_edt.c:21-53 | bytes and packets are counted, a packet too far ahead is dropped with its timestamp and the slot's last departure kept, any other leaves exactly when the slot records |
| Edt.EdtMaps.UpdateRate | bwm/pkg/bpfgo/bpf/tc_edt.c:55-71 | a closed sampling period folds its rate into the average and starts a new one |
| Edt.EdtMaps.EdtHandle | bwm/pkg/bpfgo/bpf/tc_edt.c:148-202 | the whole per-packet handler changes only the slot of the packet's id; an id outside the maps passes untouched |
| EdtRuns.RunIsPacedExactly | bwm/pkg/bpfgo/bpf/tc_edt.c:148-174 | the accepted packets of a run form one schedule exactly when every packet that finds the slot's average at zero may leave by its own time whatever was booked; drops, changes of req_rate and closed periods do not disturb it |
| EdtRuns.SlotPacingBound | bwm/pkg/bpfgo/bpf/tc_edt.c:21-53 | between any two departures of such a run with req_rate at most r the bytes released keep to rate r |
| EdtRuns.SlotBusyBound | bwm/pkg/bpfgo/bpf/tc_edt.c:21-53 | and, while its packets wait for each other only, use rate r in full if no req_rate is below r |
| EdtRuns.DepartureExactly | bwm/pkg/bpfgo/bpf/tc_edt.c:36-52 | an accepted packet leaves at its timestamp, now, or its transmission time after its predecessor, whichever is last |
| EdtRuns.RejectsExactly | bwm/pkg/bpfgo/bpf/tc_edt.c:39-40 | rejected are exactly packets of sockets other than TCP while the slot is booked more than ten seconds ahead, and the booking stays |
| EdtRuns.FirstPacketStarts | bwm/pkg/bpfgo/bpf/tc_edt.c:13-19 | the first packet starts the average at the low rate and the sampling period with its bytes |
| EdtRuns.SlotScheduleIsLeastExactly | bwm/pkg/bpfgo/bpf/tc_edt.c:36-52 | the departures of a run are admissible and the earliest possible exactly in such a run |
| EdtRuns.PacketsAccounted | bwm/pkg/bpfgo/bpf/tc_edt.c:29-40 | total_pkts counts every packet once, as released or dropped |
| EdtRuns.BacklogAfterAccepted | bwm/pkg/bpfgo/bpf/tc_edt.c:39-52 | after an accepted datagram the slot is booked at most ten seconds and one transmission time ahead, and no 64-bit time wraps |
| EdtRuns.BacklogBound | bwm/pkg/bpfgo/bpf/tc_edt.c:29-52 | the same bound over whole runs of datagrams |
| EdtRuns.RateReachesZeroExactly | bwm/pkg/bpfgo/bpf/tc_edt.c:60-70 | the average becomes zero exactly when a period closes with the average at one and less than one byte per second measured |
| EdtRuns.ResetExactly | bwm/pkg/bpfgo/bpf/tc_edt.c:166-170 | a running slot is re-initialised exactly when some earlier packet of the run starves |
| EdtRuns.BusySlotResetsOnce | bwm/pkg/bpfgo/bpf/tc_edt.c:166-170 | a slot whose closed periods each measure a byte per second is initialised at most once, so from zeroed statistics its whole life is one schedule |
| EdtRuns.ResetBreaksPacing | bwm/pkg/bpfgo/bpf/tc_edt.c:166-167 | under every configuration with positive rates a run from zeroed statistics exists, all released, whose last packet departs before its first |
| Average.EmaStep | bwm/pkg/bpfgo/bpf/tc_edt.c:65 | the average moves towards the sample, never past it, and stands still exactly in the band of eight values that end at the sample |
| Average.PeriodMeasures | bwm/pkg/bpfgo/bpf/tc_edt.c:55-71 | a sampling period measures the bytes of all its packets over its time, rounded down, and moves the average to seven eighths of itself and one of that |
| Average.Converges | bwm/pkg/bpfgo/bpf/tc_edt.c:61-69 | with constant samples the average falls to exactly the sample, or rises into the band, within the distance in periods |
| Average.ConvergesGeometrically | bwm/pkg/bpfgo/bpf/tc_edt.c:61-69 | each period removes at least an eighth of the distance still to go |
| Average.SteadyTrafficMeasured | bwm/pkg/bpfgo/bpf/tc_edt.c:55-71 | a slot whose every period carries x bytes per second comes, within the distance in periods, to an average of exactly x from above, or within seven of it from below |
| Composed.SlotWindow | bwm/pkg/bpfgo/bpf/tc_edt.c:21-53 | all bytes of one slot's history that depart within a span of time keep to the highest request under which they were stamped |
| Composed.HostWindow | bwm/pkg/bpfgo/bpf/tc_edt.c:21-53 | the bytes of any set of slots that depart within a span keep to the sum of those requests, whatever rounds wrote them |
| Composed.HostBandwidthBound | bwm/cmd/alg-daemon/algproc/daemon_proc.go:177-235 | after a round, once no active slot is booked ahead from before it, all bytes that depart keep to the total bandwidth, or the phase-1 sum, plus the grants, for any positive low rates and floor |
| Composed.DatagramsDrain | bwm/pkg/bpfgo/bpf/tc_edt.c:39-52 | for datagrams that is the case ten seconds and one transmission time after the last packet |
| Composed.BacklogBreaksCap | bwm/cmd/alg-daemon/algproc/daemon_proc.go:145-147 | the condition matters: a round that reads a slot lowers its request, and packets stamped before it exceed the cap |
| Ifb.ExecKeepsInv | bwm/example/kernelko/dhcifb.c:62-126 | every interleaving of the two actors, of other lock holders and of interface changes keeps the queue's invariant |
| Ifb.FifoAndConservation | bwm/example/kernelko/dhcifb.c:68-107 | packets taken, then tq, then rq are the packets that came redirected from a known interface, in order; packets and bytes received and sent, and drops, are all accounted for |
| Ifb.DroppedAreUnserved | bwm/example/kernelko/dhcifb.c:89-107 | a packet is forwarded exactly if its interface exists when its turn comes, and tx_dropped counts exactly the others |
| Ifb.FoundExactly | bwm/example/kernelko/dhcifb.c:89-107 | with the same interfaces throughout, exactly packets of those are forwarded |
| Ifb.NoLostWakeup | bwm/example/kernelko/dhcifb.c:109-124 | with the lock free, waiting packets or a stopped queue imply the pending flag, and the flag implies a tasklet due or at work; the unlocked write of the flag never changes it |
| Ifb.QueueBounded | bwm/example/kernelko/dhcifb.c:254-261 | rq holds at most tx_queue_len + 1 packets, and that many only while stopped |
| Ifb.TaskletDrains | bwm/example/kernelko/dhcifb.c:62-126 | from any reachable state, once ifb_xmit pauses, a bounded number of tasklet steps takes every packet, clears the flag and restarts the queue |
| Ifb.FinishKeepsInv | bwm/example/kernelko/dhcifb.c:62-126 | an uninterrupted activation ends and is covered by the interleavings |
| IfbDevice.IfbQueue.IfbXmit | bwm/example/kernelko/dhcifb.c:238-264 | the whole call equals its atomic steps in sequence |
| IfbDevice.IfbQueue.IfbRiTasklet | bwm/example/kernelko/dhcifb.c:62-126 | the whole activation, with its loop and its jumps, equals its atomic steps in sequence |
| IfbDevice.IfbQueue.DrainTq | bwm/example/kernelko/dhcifb.c:77-107 | the dequeuing loop equals the drain and deliver steps and stops at a missing interface exactly when packets remain |
| Watermark.ParseUnit | bwm/bwmcli/bwmcli.c:866-891 | a number is accepted exactly when its unit is known and the product fits in 64 bits, and then the value is that product |
| WatermarkRuns.OfflineExactly | bwm/bwmcli/bpf/bwm_tc.c:160-166 | offline are the packets whose priority and class id add up to 2^32 - 1 |
| WatermarkRuns.OfflineDepartureExactly | bwm/bwmcli/bpf/bwm_tc.c:71-103 | which offline packets are dropped, and when any other leaves |
| WatermarkRuns.ClosedPeriod | bwm/bwmcli/bpf/bwm_tc.c:106-139 | a period closes exactly when the interval is exceeded; both rates measured over it are recorded, the online one against the water line decides the rate |
| WatermarkRuns.PacketsAccounted | bwm/bwmcli/bpf/bwm_tc.c:65-80 | every packet is counted once, as online or as offline |
| WatermarkRuns.SettingsExactly | bwm/bwmcli/bwmcli.c:1123-1246 | which settings take effect, in bytes per second, and that no other changes anything |
| Watermark.BwmMaps.BwmOffline | bwm/bwmcli/bpf/bwm_tc.c:71-103 | offline packets are counted and paced at the rate in force |
| Watermark.BwmMaps.AdjustRate | bwm/bwmcli/bpf/bwm_tc.c:106-139 | a closed period selects the low or high rate by the water line and resets both counters |
| Watermark.BwmMaps.BwmTc | bwm/bwmcli/bpf/bwm_tc.c:141-175 | a packet is initialised for, classified by the 32-bit sum of priority and class id, counted or paced, and may close a period |
| Watermark.BwmMaps.InitCfgMap | bwm/bwmcli/bwmcli.c:1123-1147 | a map without interval receives the defaults, any other is kept |
| Watermark.BwmMaps.SetBandwidth | bwm/bwmcli/bwmcli.c:1163-1199 | a pair is stored exactly when it is ordered and within the limits |
| Watermark.BwmMaps.SetWaterline | bwm/bwmcli/bwmcli.c:1213-1246 | a value is stored exactly when it is within the limits |
| WatermarkRuns.Step | bwm/bwmcli/bpf/bwm_tc.c:158-171 | settings stay in range, also while unset, the rate stays zero or in range, and with settings in place it is never zero again once set |
| WatermarkRuns.SettingsStaySafe | bwm/bwmcli/bwmcli.c:1123-1246 | from zeroed maps, whatever packets and settings come before InitCfgMap, from then on configuration and rate stay within the limits |
| WatermarkRuns.RunIsPaced | bwm/bwmcli/bpf/bwm_tc.c:71-103 | offline departures form one schedule over any interleaving of settings and packets |
| WatermarkRuns.OfflinePacingBound | bwm/bwmcli/bpf/bwm_tc.c:82-102 | between any two departures the offline bytes keep to the highest high rate in force during the run |
| WatermarkRuns.AlwaysCapped | bwm/bwmcli/bwmcli.c:1181 | whatever is configured, the largest admissible rate is such a cap |
| WatermarkRuns.FeedbackAccounts | bwm/bwmcli/bpf/bwm_tc.c:65-69 | every online byte is in one closed period or in the counter, and each check counts one low or one high time |
| WatermarkRuns.RateFollowsWatermark | bwm/bwmcli/bpf/bwm_tc.c:121-127 | with settings left alone the pacing rate is decided by the last closed period |
| WatermarkRuns.PacedLowExactly | bwm/bwmcli/bpf/bwm_tc.c:116-138 | offline packets are paced at the low rate exactly when the last closed period reached the water line or none has closed |
| Names.ProcessIdInjective | bwm/cmd/daemon/rpcserver/ctlrpcserver.go:23 | no two flows share a registered name, whatever the direction strings |
| Names.IpTextInjective | bwm/pkg/nets/nets.go:25-29 | different addresses have different dotted quads |
| Names.IpTextOf | bwm/pkg/nets/nets.go:25-29 | a dotted quad spells the four bytes of the address, lowest first |
| Names.ClassIdIs | bwm/pkg/bpfgo/utils.go:63-66 | the word is the id shifted by 16 bits plus a priority below 2^16 |
| Names.ClassIdRoundTrip | bwm/pkg/bpfgo/utils.go:63-66 | the kernel recovers id and priority from the word exactly when the priority fits in 16 bits |
| IdManager.LeastFree | bwm/cmd/daemon/idmanager/idmanager.go:54-63 | the scan finds the least free id and fails only when all are taken |
| IdManager.IDManager.AllocatePodId | bwm/cmd/daemon/idmanager/idmanager.go:44-64 | a known container keeps its id, a new one gets the least free pod id and is filed under it in both maps |
| IdManager.IDManager.ReleaseByPodId | bwm/cmd/daemon/idmanager/idmanager.go:66-74 | the id and the container it names are removed |
| IdManager.IDManager.ReleasePodIdByContainerId | bwm/cmd/daemon/idmanager/idmanager.go:76-84 | the container and its id are removed |
| IdManager.IDManager.InsertPodInfo | bwm/cmd/daemon/idmanager/idmanager.go:86-92 | the record is filed under its id and its container |
| IdManager.IDManager.LookupPodInfoByLocalId | bwm/cmd/daemon/idmanager/idmanager.go:104-116 | on paired maps the answer is the one pod with that id |
| IdManager.IDManager.AllocateProcessId | bwm/cmd/daemon/idmanager/idmanager.go:129-149 | a known flow keeps its id, a new one gets the least free flow id |
| IdManager.IDManager.ReleaseProcessInfo | bwm/cmd/daemon/idmanager/idmanager.go:151-159 | the flow and its flow id are removed |
| IdManager.IDManager.InsertProcessInfo | bwm/cmd/daemon/idmanager/idmanager.go:161-167 | the record is filed by name, and its id is written to the pod map |
| IdTheorems.InsertPodExactly | bwm/cmd/daemon/idmanager/idmanager.go:86-92 | InsertPodInfo keeps the pod maps inverse exactly when the id is a pod id and neither side is paired otherwise |
| IdTheorems.InsertProcessExactly | bwm/cmd/daemon/idmanager/idmanager.go:161-167 | InsertProcessInfo keeps the flow maps inverse exactly when the flow is registered under the same id already |
| IdTheorems.ReleaseByPodIdExactly | bwm/cmd/daemon/idmanager/idmanager.go:66-74 | ReleaseByPodId keeps the pod maps inverse exactly unless it is given a flow's id whose name is also a container |
| IdTheorems.AllocatePodKeeps | bwm/cmd/daemon/idmanager/idmanager.go:44-64 | allocation keeps the maps inverse, changes no other record and is idempotent per container |
| IdTheorems.AllocateProcessKeeps | bwm/cmd/daemon/idmanager/idmanager.go:129-149 | allocation for a flow keeps the maps inverse, changes no other record and is idempotent per flow |
| IdTheorems.PodIdsRunOutExactly | bwm/cmd/daemon/idmanager/idmanager.go:54-63 | allocation for a new container fails exactly when 5000 pods are live |
| IdTheorems.FlowIdsRunOutExactly | bwm/cmd/daemon/idmanager/idmanager.go:139-148 | allocation for a new flow fails exactly when 900 flows are live |
| IdTheorems.PodIdMissesMapsExactly | bwm/cmd/daemon/idmanager/idmanager.go:11-16 | a new pod gets an id beyond the kernel maps exactly when all 4000 ids inside them are taken |
| IdTheorems.RecoveryIsPaired | bwm/cmd/daemon/main.go:61-95 | recovery of pods with distinct ids and containers yields inverse maps |
| IdTheorems.RecoveryInAnyOrder | bwm/cmd/daemon/main.go:61-95 | the order in which the pods are recovered does not matter |
| IdTheorems.IdsStayBijective | bwm/cmd/daemon/idmanager/idmanager.go:44-167 | from such a recovery, under any interleaving of concurrent calls that do not release a container or flow in flight, pod ids and containers, and flow ids and flows, stay in bijection and each call owns its id |
| IdTheorems.ReleaseExactly | bwm/cmd/daemon/idmanager/idmanager.go:76-84 | releasing a container is safe exactly when no call holds it |
| IdTheorems.ReleaseFlowExactly | bwm/cmd/daemon/idmanager/idmanager.go:151-159 | releasing a flow is safe exactly when no call holds it |
| IdTheorems.ReleaseInBetweenBreaks | bwm/cmd/daemon/idmanager/idmanager.go:76-92 | releasing a container between its allocation and insertion breaks the bijection |
| IdTheorems.FlowReleaseInBetweenBreaks | bwm/cmd/daemon/idmanager/idmanager.go:151-167 | so does releasing a flow |
| Flows.RateIsPositiveExactly | bwm/pkg/bpfgo/tc_bpf.go:275-289 | a configuration has a positive rate exactly unless the requested megabits are a nonzero multiple of 2^47; below that it is 131072 bytes per second for each |
| Flows.RpcService.HandleSetFlow | bwm/cmd/daemon/rpcserver/ctlrpcserver.go:17-74 | the handler allocates, writes the id and cfg maps of its direction and files the record |
| Flows.RpcService.HandleUnSetFlow | bwm/cmd/daemon/rpcserver/ctlrpcserver.go:76-104 | the handler clears statistics, configuration and key of a registered flow and releases it |
| Flows.RpcService.HandleSetQos | bwm/cmd/daemon/rpcserver/rpcserver.go:22-105 | the handler registers a pod in both directions under port 0; a failed patch leaves only the id allocated |
| Flows.RpcService.HandleUnSetQos | bwm/cmd/daemon/rpcserver/rpcserver.go:107-133 | the handler clears a registered pod in both directions and releases it |
| FlowTheorems.SetFlowTakesEffect | bwm/cmd/daemon/rpcserver/ctlrpcserver.go:17-74 | the direction named gets a word of the id and the priority asked for, and a configuration with that priority, 10 ms, request and limit; the record holds the request; nothing else changes |
| FlowTheorems.SetQosTakesEffect | bwm/cmd/daemon/rpcserver/rpcserver.go:22-105 | so does either direction under a pod's address |
| FlowTheorems.UnSetFlowClears | bwm/cmd/daemon/rpcserver/ctlrpcserver.go:76-104 | key, configuration and statistics of the flow are cleared in the direction named, and nothing else |
| FlowTheorems.UnSetQosClears | bwm/cmd/daemon/rpcserver/rpcserver.go:107-133 | those of the pod in both directions, and nothing else |
| FlowTheorems.OtherCallsKeepRecord | bwm/cmd/daemon/rpcserver/ctlrpcserver.go:17-104 | a flow's record changes only by calls on that flow |
| FlowTheorems.FlowIdStaysInPodMap | bwm/cmd/daemon/idmanager/idmanager.go:151-167 | the id of a flow stays in the pod map after its release |
| FlowTheorems.SetFlowKeepsInv | bwm/cmd/daemon/rpcserver/ctlrpcserver.go:17-74 | SetFlow on a nonzero port keeps id map, cfg map and records of both directions in agreement |
| FlowTheorems.UnSetFlowKeepsInv | bwm/cmd/daemon/rpcserver/ctlrpcserver.go:76-104 | UnSetFlow keeps them in agreement |
| FlowTheorems.SetQosKeepsInv | bwm/cmd/daemon/rpcserver/rpcserver.go:22-105 | SetQos does not disturb what flows rely on and keeps pod ids paired |
| FlowTheorems.UnSetQosKeepsInv | bwm/cmd/daemon/rpcserver/rpcserver.go:107-133 | UnSetQos does not disturb it either |
| FlowTheorems.FailedPatchExactly | bwm/cmd/daemon/rpcserver/rpcserver.go:51-73 | a SetQos whose annotation fails changes nothing exactly when the pod was not found, the container was known or 5000 pods are live; the kernel maps it never touches |
| FlowTheorems.RetryMakesGood | bwm/cmd/daemon/rpcserver/rpcserver.go:51-99 | repeating the call has the outcome of one successful call |
| PodTheorems.SetQosExactly | bwm/cmd/daemon/rpcserver/rpcserver.go:75-99 | SetQos keeps port-0 keys and configurations equal to the live pods' exactly when it changes nothing, or the pod is annotated under its own unchanged address |
| PodTheorems.UnSetQosKeepsPods | bwm/cmd/daemon/rpcserver/rpcserver.go:107-133 | UnSetQos keeps them equal |
| PodTheorems.MovedPodLeavesKey | bwm/cmd/daemon/rpcserver/rpcserver.go:75-99 | a pod set again under another address leaves the old key mapped, even after UnSetQos |
| Lifetime.RoundRewritesRequests | bwm/cmd/alg-daemon/algproc/daemon_proc.go:129-135 | a round changes nothing of a configuration but its request |
| Lifetime.FlowIndexAgreement | bwm/cmd/daemon/rpcserver/ctlrpcserver.go:17-104 | from a restart over any pinned maps, after any calls, rounds and traffic, every live flow of a direction is mapped to its id and priority, with its configuration under its id; any other nonzero port or flow id is empty or as the last daemon left it; requests are as configured unless a round has run |
| Lifetime.PodIndexAgreement | bwm/cmd/daemon/main.go:61-164 | the same for pods with addresses of their own, on port 0 and pod ids inside the kernel maps |
| Lifetime.LeftoverJoinsFirstFlow | bwm/cmd/daemon/idmanager/idmanager.go:139-148 | leftovers matter: after a restart the first flow gets id 100 and its configuration, while an old key keeps its word |
| Lifetime.WriteInBetweenIsLost | bwm/cmd/alg-daemon/algproc/daemon_proc.go:163-234 | a configuration written for a new id between a round's reading and writing back is lost |
| FlowTheorems.EgressTrafficIsFlows | bwm/pkg/bpfgo/bpf/tc_edt.c:226-237 | outgoing traffic of a registered flow is handled under its id and priority and its configuration |
| FlowTheorems.IngressTrafficIsFlows | bwm/pkg/bpfgo/bpf/tc_edt.c:285-296 | incoming traffic to a registered flow is handled under its id and priority and its configuration |
| FlowTheorems.EgressClientIsFlows | bwm/pkg/bpfgo/bpf/tc_edt.c:239-248 | outgoing traffic to a registered remote address and port is the flow's, when none is registered for its own |
| FlowTheorems.IngressClientIsFlows | bwm/pkg/bpfgo/bpf/tc_edt.c:296-305 | incoming traffic from one likewise |
| FlowTheorems.UnregisteredIsDefault | bwm/pkg/bpfgo/bpf/tc_edt.c:257-258 | traffic between unregistered addresses and ports is the default stream's |
| PodTheorems.EgressTrafficIsPods | bwm/pkg/bpfgo/bpf/tc_edt.c:216-223 | whatever its ports and the flows registered, what a mapped pod sends is handled under its id and priority |
| PodTheorems.IngressTrafficIsPods | bwm/pkg/bpfgo/bpf/tc_edt.c:272-283 | so is what it receives |
| Lifetime.PodTrafficAgreement | bwm/pkg/bpfgo/bpf/tc_edt.c:148-174 | over any lifetime that respects addresses, all traffic of a live pod is handled under its id and priority and a configuration with the same priority and all else asked for, rounds or not |
| Lifetime.FlowTrafficAgreement | bwm/pkg/bpfgo/bpf/tc_edt.c:148-174 | the same for traffic of a live flow's own address and port, unless a pod has the address |
| FlowTheorems.UnSetUndoesSet | bwm/cmd/daemon/rpcserver/ctlrpcserver.go:76-104 | UnSetFlow undoes SetFlow of a new flow on records, ids, id maps and cfg maps |
| Mpls.EntryFields | bwm/pkg/github.com/vishvananda/netlink/nl/mpls_linux.go:13-16 | an entry carries its label modulo 2^20, the S bit exactly at the bottom, and no other field |
| Mpls.EncodeMPLSStack | bwm/pkg/github.com/vishvananda/netlink/nl/mpls_linux.go:10-20 | the loop fills the buffer with the entries in order |
| Mpls.EncodeOnWire | bwm/pkg/github.com/vishvananda/netlink/nl/mpls_linux.go:10-20 | byte by byte, in network order: 20 bits of label, the S bit on exactly the last entry, zero elsewhere |
| Mpls.DecodeOnWire | bwm/pkg/github.com/vishvananda/netlink/nl/mpls_linux.go:22-36 | any four bytes are read as the label of their first 20 bits, and end the stack exactly if the S bit is set |
| Mpls.DecodeMPLSStack | bwm/pkg/github.com/vishvananda/netlink/nl/mpls_linux.go:22-36 | the loop consumes entries and stops at the bottom one |
| Mpls.RoundTripExactly | bwm/pkg/github.com/vishvananda/netlink/nl/mpls_linux.go:10-36 | decoding an encoded stack gives the labels modulo 2^20, hence the same labels exactly when all fit in 20 bits |
| Mpls.TrailingEntriesIgnored | bwm/pkg/github.com/vishvananda/netlink/nl/mpls_linux.go:31-33 | whole entries behind the bottom one are ignored |
| Mpls.EncodeIsCanonical | bwm/pkg/github.com/vishvananda/netlink/nl/mpls_linux.go:10-20 | an encoded stack has the S bit on exactly the last entry and all other fields zero |
| Mpls.ReencodeExactly | bwm/pkg/github.com/vishvananda/netlink/nl/mpls_linux.go:22-36 | encoding what was decoded restores the bytes exactly when they are canonical |
| Mpls.MPLSEncap.EncodeAttr | bwm/pkg/github.com/vishvananda/netlink/route_linux.go:150-156 | the attribute is length, type and stack |
| Mpls.MPLSEncap.DecodeAttr | bwm/pkg/github.com/vishvananda/netlink/route_linux.go:133-148 | the labels change exactly when the attribute is accepted; short, mistyped and overlong attributes are told apart |
| Mpls.AttributeOnWire | bwm/pkg/github.com/vishvananda/netlink/route_linux.go:150-156 | the attribute's bytes: length modulo 2^16 and type 1 in the machine's order, then the stack |
| Mpls.VerdictExactly | bwm/pkg/github.com/vishvananda/netlink/route_linux.go:133-148 | which attributes are accepted, by length and type; others leave the labels alone |
| Mpls.AttributeRoundTrip | bwm/pkg/github.com/vishvananda/netlink/route_linux.go:133-156 | through the attribute the labels come back, also with bytes behind it, while its length fits 16 bits |
| Mpls.AttributeRoundTripExactly | bwm/pkg/github.com/vishvananda/netlink/route_linux.go:133-156 | for every list of labels, the same list comes back through the attribute exactly when its length fits 16 bits and all labels fit 20 bits |
| Mpls.AttributeTooLong | bwm/pkg/github.com/vishvananda/netlink/route_linux.go:153 | at 16383 labels the length field wraps to zero and decoding the attribute panics |

## Left out

- AllocatorDaemon.EdtProcData.RunRound: integers are unbounded; RoundFitsIn64Bits shows they model the 64-bit arithmetic exactly for rates below 2^48 bytes per second. The comparison with the float ratio is made on exact fractions, without rounding.
- AllocatorSharing.WorkConservationExactly: says nothing of remainders within the roundings, where a table out of order may or may not give all away.
- Composed.HostBandwidthBound: counts the active instances, whose requests the round adds up; an instance without traffic in the last period keeps the request it had, and HostWindow covers any set of slots.
- Edt.EdtMaps.EdtHandle: sums of times and the product of tx_bytes with one second are unbounded; BacklogAfterAccepted bounds the times for datagrams, and lengths of up to 32 bits are covered by DelayFitsIn64Bits.
- Edt.EdtMaps.StatisticsAndEdtPacket: packets of one slot are handled one after another; atomic adds on several CPUs and the update without lock are not modelled.
- Watermark.BwmMaps.BwmTc: sums of times and byte products are unbounded, and packets are handled one after another.
- Watermark.ParseUnit: takes the number and the unit suffix as parsed; splitting the argument string is not modelled.
- IfbDevice.IfbQueue.IfbRiTasklet: the whole activation finds the lock as others leave it at its two try-locks; packets that ifb_xmit queues meanwhile are covered by the atomic steps of module Ifb.
- Ifb.NoLostWakeup: ifb_open and ifb_close, which start and stop queues by themselves, are not steps of the model; one transmit queue and a fixed tx_queue_len.
- Flows.RpcService.HandleSetFlow: writes to the kernel id maps succeed and nothing is evicted; concurrent handlers are interleaved only at the ID manager (IdTheorems).
- Lifetime.FlowIndexAgreement: flows on port 0, whose key would be a pod's, are excluded; a round reads and writes back in one step (WriteInBetweenIsLost shows why), and no call comes before the pods are restored.
- Mpls.MPLSEncap.DecodeAttr: a panic of the source on a stated length below 4 is the result OutOfBounds.
- Header parsing of packets, byte order of ports, the high rate (unused by the code), and the CUSTOM_MARK_SKB variant.
- Kubernetes client, gRPC plumbing, CNI plugin, command-line front ends, tc and cgroup commands, loading of eBPF maps: foreign calls.
- ListQosFlow, ListQosPodInfo, ListPodInfo and ListProcessInfo: copies of map contents in unspecified order.
- IPv6 and unparsable addresses, cls_dhcmatchall.c, bwm.c, the rest of the vendored netlink library.
