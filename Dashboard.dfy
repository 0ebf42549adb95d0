/** The monitoring dashboard: the alert rule applied to every sample, the
    colour of each gauge, the alert thresholds the user can change, and the
    bounded history of samples. Reading the system (psutil), the clock, the
    graphs and the window are outside the model: a sample comes in as data,
    and the conversion of a threshold text by `float()` is a parameter. */
module Dashboard {
  import opened Text

  datatype Resource = Cpu | Memory | Disk

  datatype Severity = Warning | Critical

  /** The percentages of one `get_system_info` result and its timestamp. */
  datatype Sample = Sample(timestamp: nat, cpu: real, memory: real, disk: real)

  datatype Alert = Alert(kind: Resource, percent: real, timestamp: nat, severity: Severity)

  datatype Thresholds = Thresholds(cpu: real, memory: real, disk: real)

  /** The thresholds the dashboard starts with. */
  const DefaultThresholds: Thresholds := Thresholds(80.0, 85.0, 90.0)

  /** The number of samples each history keeps (`deque(maxlen=100)`). */
  const HistoryLength: nat := 100

  function Percent(s: Sample, r: Resource): real
  {
    match r
    case Cpu => s.cpu
    case Memory => s.memory
    case Disk => s.disk
  }

  function Limit(t: Thresholds, r: Resource): real
  {
    match r
    case Cpu => t.cpu
    case Memory => t.memory
    case Disk => t.disk
  }

  /** The position of a resource in the alert list. */
  function Rank(r: Resource): nat
  {
    match r
    case Cpu => 0
    case Memory => 1
    case Disk => 2
  }

  /** The percentage from which an alert is critical. */
  function CriticalFrom(r: Resource): real
  {
    if r == Disk then 98.0 else 95.0
  }

  function SeverityOf(r: Resource, p: real): (v: Severity)
    ensures v == Critical <==> p >= CriticalFrom(r)
  {
    if p < CriticalFrom(r) then Warning else Critical
  }

  predicate Raised(alerts: seq<Alert>, r: Resource)
  {
    exists i :: 0 <= i < |alerts| && alerts[i].kind == r
  }

  /** `alert` is the alert the sample gives for its own resource. */
  predicate Describes(alert: Alert, s: Sample)
  {
    alert.percent == Percent(s, alert.kind) && alert.timestamp == s.timestamp
    && alert.severity == SeverityOf(alert.kind, alert.percent)
  }

  /** The alert a sample gives for one resource. */
  function AlertFor(s: Sample, r: Resource): (a: Alert)
    ensures a.kind == r && Describes(a, s)
  {
    Alert(r, Percent(s, r), s.timestamp, SeverityOf(r, Percent(s, r)))
  }

  /** The alerts list after looking at resource `r`. */
  function Check(alerts: seq<Alert>, s: Sample, t: Thresholds, r: Resource): seq<Alert>
  {
    if Percent(s, r) > Limit(t, r) then alerts + [AlertFor(s, r)] else alerts
  }

  function Alerts(s: Sample, t: Thresholds): seq<Alert>
  {
    Check(Check(Check([], s, t, Cpu), s, t, Memory), s, t, Disk)
  }

  lemma AlertsDescribe(s: Sample, t: Thresholds)
    ensures |Alerts(s, t)| <= 3
    ensures forall i :: 0 <= i < |Alerts(s, t)| ==> Describes(Alerts(s, t)[i], s)
  {
  }

  lemma AlertsOrdered(s: Sample, t: Thresholds)
    ensures forall i, j :: 0 <= i < j < |Alerts(s, t)| ==> Rank(Alerts(s, t)[i].kind) < Rank(Alerts(s, t)[j].kind)
  {
    var a := Check([], s, t, Cpu);
    var b := Check(a, s, t, Memory);
    assert forall i :: 0 <= i < |a| ==> a[i].kind == Cpu;
    assert forall i :: 0 <= i < |b| ==> Rank(b[i].kind) <= 1;
  }

  lemma AlertsRaised(s: Sample, t: Thresholds, r: Resource)
    ensures Raised(Alerts(s, t), r) <==> Percent(s, r) > Limit(t, r)
  {
    var a := Check([], s, t, Cpu);
    var b := Check(a, s, t, Memory);
    var c := Check(b, s, t, Disk);
    assert forall i :: 0 <= i < |c| ==> Percent(s, c[i].kind) > Limit(t, c[i].kind);
    if Percent(s, r) > Limit(t, r) {
      var i := match r
        case Cpu => 0
        case Memory => |b| - 1
        case Disk => |c| - 1;
      assert c[i].kind == r;
    }
  }

  /** `check_alerts`: an alert for each resource whose percentage is above
      its threshold, CPU first, then memory, then disk. */
  method CheckAlerts(s: Sample, t: Thresholds) returns (alerts: seq<Alert>)
    ensures |alerts| <= 3
    ensures forall r :: Raised(alerts, r) <==> Percent(s, r) > Limit(t, r)
    ensures forall i :: 0 <= i < |alerts| ==> Describes(alerts[i], s)
    ensures forall i, j :: 0 <= i < j < |alerts| ==> Rank(alerts[i].kind) < Rank(alerts[j].kind)
  {
    alerts := [];
    if s.cpu > t.cpu {
      alerts := alerts + [Alert(Cpu, s.cpu, s.timestamp, if s.cpu < 95.0 then Warning else Critical)];
    }
    if s.memory > t.memory {
      alerts := alerts + [Alert(Memory, s.memory, s.timestamp, if s.memory < 95.0 then Warning else Critical)];
    }
    if s.disk > t.disk {
      alerts := alerts + [Alert(Disk, s.disk, s.timestamp, if s.disk < 98.0 then Warning else Critical)];
    }
    assert alerts == Alerts(s, t);
    AlertsDescribe(s, t);
    AlertsOrdered(s, t);
    forall r ensures Raised(alerts, r) <==> Percent(s, r) > Limit(t, r) {
      AlertsRaised(s, t, r);
    }
  }

  // ------------------------------------------------------------ gauge colours

  datatype Colour = Green | Orange | Red

  /** The percentage above which a gauge is red, and above which it is orange. */
  function RedAbove(r: Resource): real
  {
    match r
    case Cpu => 80.0
    case Memory => 85.0
    case Disk => 90.0
  }

  function OrangeAbove(r: Resource): real
  {
    match r
    case Cpu => 60.0
    case Memory => 70.0
    case Disk => 80.0
  }

  /** The colour `update_display` gives a gauge. */
  function Band(r: Resource, p: real): (c: Colour)
    ensures c == Red <==> p > RedAbove(r)
    ensures c == Orange <==> OrangeAbove(r) < p <= RedAbove(r)
    ensures c == Green <==> p <= OrangeAbove(r)
  {
    match r
    case Cpu => if p > 80.0 then Red else if p > 60.0 then Orange else Green
    case Memory => if p > 85.0 then Red else if p > 70.0 then Orange else Green
    case Disk => if p > 90.0 then Red else if p > 80.0 then Orange else Green
  }

  function Level(c: Colour): nat
  {
    match c
    case Green => 0
    case Orange => 1
    case Red => 2
  }

  /** A higher percentage never shows a calmer colour. */
  lemma BandMonotone(r: Resource, p: real, q: real)
    requires p <= q
    ensures Level(Band(r, p)) <= Level(Band(r, q))
  {
  }

  /** With the default thresholds, a resource raises an alert exactly when
      its gauge is red. */
  lemma AlertIffRed(s: Sample, r: Resource, alerts: seq<Alert>)
    requires forall x :: Raised(alerts, x) <==> Percent(s, x) > Limit(DefaultThresholds, x)
    ensures Raised(alerts, r) <==> Band(r, Percent(s, r)) == Red
  {
    assert Raised(alerts, r) <==> Percent(s, r) > Limit(DefaultThresholds, r);
  }

  /** A critical alert is always on a red gauge: critical starts above every
      red band. */
  lemma CriticalIsRed(a: Alert)
    requires a.severity == Critical && a.severity == SeverityOf(a.kind, a.percent)
    ensures Band(a.kind, a.percent) == Red
  {
  }

  // ------------------------------------------------------------ history

  /** `deque.append` on a deque with `maxlen`: when full, the oldest goes. */
  function Append<T>(d: seq<T>, x: T, maxlen: nat): (r: seq<T>)
    requires 0 < maxlen && |d| <= maxlen
    ensures |r| == if |d| < maxlen then |d| + 1 else maxlen
    ensures r[|r| - 1] == x
    ensures forall i :: 0 <= i < |r| - 1 ==> r[i] == d[i + |d| + 1 - |r|]
  {
    if |d| < maxlen then d + [x] else d[1..] + [x]
  }

  /** The series stay the samples' latest values, in order, newest last. */
  lemma {:induction false} AppendKeepsLatest<T>(d: seq<T>, x: T, maxlen: nat, k: nat)
    requires 0 < maxlen && |d| <= maxlen && k < maxlen && k <= |d|
    ensures Append(d, x, maxlen)[|Append(d, x, maxlen)| - 1 - k..] == (d + [x])[|d| - k..]
  {
    var r := Append(d, x, maxlen);
    var top := r[|r| - 1 - k..];
    var want := (d + [x])[|d| - k..];
    assert |top| == |want|;
    forall j | 0 <= j < |top| ensures top[j] == want[j] {
      if j < k {
        assert top[j] == r[|r| - 1 - k + j];
      }
    }
  }

  class SystemMonitor {
    var thresholds: Thresholds
    var cpuHistory: seq<real>
    var memoryHistory: seq<real>
    var diskHistory: seq<real>
    var timestamps: seq<nat>

    ghost predicate Valid()
      reads this
    {
      |cpuHistory| == |memoryHistory| == |diskHistory| == |timestamps| <= HistoryLength
    }

    constructor ()
      ensures Valid()
      ensures thresholds == DefaultThresholds
      ensures cpuHistory == memoryHistory == diskHistory == [] && timestamps == []
    {
      thresholds := DefaultThresholds;
      cpuHistory, memoryHistory, diskHistory, timestamps := [], [], [], [];
    }

    /** One step of `monitoring_thread`: the sample goes into each history. */
    method RecordSample(s: Sample)
      requires Valid()
      modifies this`cpuHistory, this`memoryHistory, this`diskHistory, this`timestamps
      ensures Valid()
      ensures cpuHistory == Append(old(cpuHistory), s.cpu, HistoryLength)
      ensures memoryHistory == Append(old(memoryHistory), s.memory, HistoryLength)
      ensures diskHistory == Append(old(diskHistory), s.disk, HistoryLength)
      ensures timestamps == Append(old(timestamps), s.timestamp, HistoryLength)
    {
      cpuHistory := Append(cpuHistory, s.cpu, HistoryLength);
      memoryHistory := Append(memoryHistory, s.memory, HistoryLength);
      diskHistory := Append(diskHistory, s.disk, HistoryLength);
      timestamps := Append(timestamps, s.timestamp, HistoryLength);
    }

    /** 'Mettre à jour les seuils': the three texts are converted and stored
        one after the other; the first conversion that fails stops the
        update, so the thresholds before it are already replaced. */
    method UpdateThresholds(cpuText: string, memoryText: string, diskText: string,
                            parseFloat: string -> Option<real>) returns (ok: bool)
      modifies this`thresholds
      ensures ok <==> parseFloat(cpuText).Some? && parseFloat(memoryText).Some? && parseFloat(diskText).Some?
      ensures thresholds == Thresholds(
        if parseFloat(cpuText).Some? then parseFloat(cpuText).value else old(thresholds).cpu,
        if parseFloat(cpuText).Some? && parseFloat(memoryText).Some? then parseFloat(memoryText).value else old(thresholds).memory,
        if ok then parseFloat(diskText).value else old(thresholds).disk)
    {
      var cpu := parseFloat(cpuText);
      if cpu.None? {
        return false;
      }
      thresholds := thresholds.(cpu := cpu.value);
      var memory := parseFloat(memoryText);
      if memory.None? {
        return false;
      }
      thresholds := thresholds.(memory := memory.value);
      var disk := parseFloat(diskText);
      if disk.None? {
        return false;
      }
      thresholds := thresholds.(disk := disk.value);
      ok := true;
    }
  }
}
