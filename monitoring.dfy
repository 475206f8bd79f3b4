/**
 * The system monitor's health classification: the process's memory and CPU
 * percentages, as read and rounded by the metrics collector, sorted into
 * "degraded", "warning" or "healthy", with a check per resource.
 */
module Monitoring {
  import opened Wrappers

  datatype Status = Degraded | Warning | Healthy
  datatype Check = Pass | Warn

  function StatusName(s: Status): (name: string)
    ensures name in {"degraded", "warning", "healthy"}
  {
    match s
    case Degraded => "degraded"
    case Warning => "warning"
    case Healthy => "healthy"
  }

  function CheckName(c: Check): (name: string)
    ensures name in {"ok", "warning"}
  {
    if c == Pass then "ok" else "warning"
  }

  /** The process figures: memory and CPU use, in percent. */
  datatype Reading = Reading(memoryPercent: real, cpuPercent: real)

  datatype Report = Report(status: Status, memory: Check, cpu: Check)

  /** Degraded above 90% memory or 95% CPU; otherwise warning above 75% memory or 80% CPU; otherwise healthy. */
  function Classify(memory: real, cpu: real): (s: Status)
    ensures s == Degraded <==> memory > 90.0 || cpu > 95.0
    ensures s == Warning <==> !(memory > 90.0 || cpu > 95.0) && (memory > 75.0 || cpu > 80.0)
    ensures s == Healthy <==> memory <= 75.0 && cpu <= 80.0
  {
    if memory > 90.0 || cpu > 95.0 then Degraded
    else if memory > 75.0 || cpu > 80.0 then Warning
    else Healthy
  }

  /** The per-resource checks: ok strictly below 90% memory and strictly below 95% CPU. */
  function MemoryCheck(memory: real): (c: Check)
    ensures c == Pass <==> memory < 90.0
  {
    if memory < 90.0 then Pass else Warn
  }

  function CpuCheck(cpu: real): (c: Check)
    ensures c == Pass <==> cpu < 95.0
  {
    if cpu < 95.0 then Pass else Warn
  }

  /**
   * `get_health_status`: `metrics` is `None` when collecting the figures
   * failed and only an error was returned; a missing figure counts as 0.
   */
  function HealthStatus(metrics: Option<Reading>): (r: Report)
    ensures metrics.Some? ==> r.status == Classify(metrics.value.memoryPercent, metrics.value.cpuPercent)
    ensures metrics.Some? ==> r.memory == MemoryCheck(metrics.value.memoryPercent) && r.cpu == CpuCheck(metrics.value.cpuPercent)
    ensures metrics.None? ==> r == Report(Healthy, Pass, Pass)
  {
    var memory := if metrics.Some? then metrics.value.memoryPercent else 0.0;
    var cpu := if metrics.Some? then metrics.value.cpuPercent else 0.0;
    Report(Classify(memory, cpu), MemoryCheck(memory), CpuCheck(cpu))
  }

  /** Worse is larger. */
  function Severity(s: Status): nat
  {
    match s
    case Healthy => 0
    case Warning => 1
    case Degraded => 2
  }

  /** Higher usage never yields a better status. */
  lemma ClassifyMonotone(m1: real, c1: real, m2: real, c2: real)
    requires m1 <= m2 && c1 <= c2
    ensures Severity(Classify(m1, c1)) <= Severity(Classify(m2, c2))
  {
  }

  /** A failed check never comes with a healthy status, and a degraded status always fails a check. */
  lemma ChecksAgreeWithStatus(reading: Reading)
    ensures var r := HealthStatus(Some(reading));
      (r.memory == Warn || r.cpu == Warn ==> r.status != Healthy) &&
      (r.status == Degraded ==> r.memory == Warn || r.cpu == Warn)
  {
  }

  /**
   * A warning status with both checks ok happens exactly when both figures
   * are below their check thresholds and one is above its warning threshold:
   * the checks alone do not reveal a warning.
   */
  lemma WarningWithPassingChecks(reading: Reading)
    ensures HealthStatus(Some(reading)) == Report(Warning, Pass, Pass) <==>
      reading.memoryPercent < 90.0 && reading.cpuPercent < 95.0 &&
      (reading.memoryPercent > 75.0 || reading.cpuPercent > 80.0)
  {
  }
}
