/**
The link predicates (LinkMonitor.h) and the outage sampling predicate
(OfflineBuffer.h), on 64-bit millisecond stamps.
*/
module LinkMonitor {
  import opened Words

  const LINK_TIMEOUT_MS: uint32 := 3000
  const BOOT_LINK_GRACE_MS: uint32 := 5000
  const OFFLINE_SAMPLE_PERIOD_MS: uint32 := 1000
  const LORA_TX_PERIOD_MS: uint32 := 200
  const UKS_HEARTBEAT_BYTE: uint8 := 0xB0

  predicate LinkCheckTimeout(nowMs: uint64, lastHbMs: uint64, timeoutMs: uint32) {
    if lastHbMs == 0 then false else Sub64(nowMs, lastHbMs) > timeoutMs
  }

  predicate LinkCheckTimeoutWithBootGrace(nowMs: uint64, lastHbMs: uint64, timeoutMs: uint32,
                                          bootMs: uint64, bootGraceMs: uint32) {
    if lastHbMs == 0 then Sub64(nowMs, bootMs) > bootGraceMs
    else LinkCheckTimeout(nowMs, lastHbMs, timeoutMs)
  }

  predicate OfflineShouldSample(nowMs: uint64, lastSampleMs: uint64, hasSample: bool, periodMs: uint32) {
    !hasSample || Sub64(nowMs, lastSampleMs) >= periodMs
  }
}
