/** The records shared by the eBPF program, the allocator and the daemon
    (bwm/pkg/bpfgo/bpf/include/tc_edt.h). Rates are bytes per second, times
    are nanoseconds. */
module Throttle {
  const NSEC_PER_SEC: nat := 1_000_000_000
  const MAX_DELAY_STAMP: nat := 10_000_000_000
  const MAX_MAP_SIZE: nat := 5000

  type uint16 = x: int | 0 <= x < 0x1_0000
  type uint32 = x: int | 0 <= x < 0x1_0000_0000

  datatype Option<+T> = None | Some(value: T)

  /** What a traffic control program says of a packet. */
  datatype Verdict = Ok | Shot

  datatype ThrottleCfg = ThrottleCfg(
    priority: nat, interval: nat, lowRate: nat, highRate: nat, reqRate: nat)

  datatype ThrottleStat = ThrottleStat(
    tLast: nat, tStart: nat, rate: nat, txBytes: nat, totalPkts: nat)

  /** Port 0 marks a pod; a nonzero port marks one flow of a host process. */
  datatype IdKey = IdKey(ip: uint32, port: uint32)

  const ZERO_CFG := ThrottleCfg(0, 0, 0, 0, 0)
  const ZERO_STAT := ThrottleStat(0, 0, 0, 0, 0)

  function Min(a: int, b: int): int { if a <= b then a else b }

  function Max(a: int, b: int): int { if a <= b then b else a }
}
