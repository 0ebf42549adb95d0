/** The real-time system monitor: three series of the latest samples (CPU,
    memory, network), trimmed together to the last 60 points, the network
    usage computed from the change of the interface counters, and the alert
    rule behind the two check boxes. Reading psutil, the plots and the
    clock are outside the model; a sample's readings come in as data. */
module RealTimeMonitor {
  import opened Text

  /** The number of points each series keeps. */
  const MaxPoints: nat := 60

  /** The bytes in a megabyte, as the monitor divides by 1024 twice. */
  const Mega: real := 1048576.0

  /** One reading: the two percentages and the interface byte counters. */
  datatype Reading = Reading(cpu: real, memory: real, bytesSent: int, bytesRecv: int)

  datatype Counters = Counters(sent: int, recv: int)

  /** Megabytes sent and received since the previous reading, 0 without one. */
  function NetworkUsage(prev: Option<Counters>, r: Reading): (mb: real)
    ensures prev.None? ==> mb == 0.0
    ensures prev.Some? ==> mb * Mega == ((r.bytesSent - prev.value.sent) + (r.bytesRecv - prev.value.recv)) as real
  {
    match prev
    case None => 0.0
    case Some(c) => (r.bytesSent - c.sent) as real / 1024.0 / 1024.0 + (r.bytesRecv - c.recv) as real / 1024.0 / 1024.0
  }

  /** The last `n` elements of `s`, all of it when shorter. */
  function Last<T>(s: seq<T>, n: nat): (r: seq<T>)
    ensures |r| == if |s| <= n then |s| else n
    ensures r == s[|s| - |r|..]
  {
    if |s| <= n then s else s[|s| - n..]
  }

  /** Appending a point to the last `MaxPoints` points of a history and
      trimming gives the last `MaxPoints` points of the longer history. */
  lemma AppendTrim<T>(history: seq<T>, x: T)
    ensures var q := Last(history, MaxPoints) + [x];
      (if |q| > MaxPoints then q[1..] else q) == Last(history + [x], MaxPoints)
  {
    var q := Last(history, MaxPoints) + [x];
    var h := history + [x];
    if |history| >= MaxPoints {
      assert q[1..] == h[|h| - MaxPoints..];
    } else {
      assert q == h;
    }
  }

  /** An alert line's content: which readings were too high. */
  datatype Alert = HighCpu(cpu: real) | HighMemory(memory: real)

  /** The limit above which a ticked box raises an alert. */
  const AlertAbove: real := 80.0

  /** The alerts of one update: CPU first, then memory, each only when its
      box is ticked and its percentage is above 80. */
  method CheckAlerts(cpuBox: bool, memoryBox: bool, r: Reading) returns (alerts: seq<Alert>)
    ensures HighCpu(r.cpu) in alerts <==> cpuBox && r.cpu > AlertAbove
    ensures HighMemory(r.memory) in alerts <==> memoryBox && r.memory > AlertAbove
    ensures |alerts| <= 2
    ensures forall i :: 0 <= i < |alerts| ==> alerts[i] == HighCpu(r.cpu) || alerts[i] == HighMemory(r.memory)
    ensures |alerts| == 2 ==> alerts[0].HighCpu? && alerts[1].HighMemory?
  {
    alerts := [];
    if cpuBox && r.cpu > 80.0 {
      alerts := alerts + [HighCpu(r.cpu)];
    }
    if memoryBox && r.memory > 80.0 {
      alerts := alerts + [HighMemory(r.memory)];
    }
  }

  /** One line of the alert box: the clock time `time.strftime` gives, as
      text, and the alerts of that update. */
  datatype LogLine = LogLine(clock: string, alerts: seq<Alert>)

  /** The alert log gets one line for an update with alerts, none otherwise. */
  function LogAfter(log: seq<LogLine>, clock: string, alerts: seq<Alert>): (r: seq<LogLine>)
    ensures alerts == [] ==> r == log
    ensures alerts != [] ==> |r| == |log| + 1 && r[..|log|] == log && r[|log|] == LogLine(clock, alerts)
  {
    if alerts == [] then log else log + [LogLine(clock, alerts)]
  }

  class Monitor {
    var cpuData: seq<real>
    var memoryData: seq<real>
    var networkData: seq<real>
    var prevNet: Option<Counters>

    ghost predicate Valid()
      reads this
    {
      |cpuData| == |memoryData| == |networkData| <= MaxPoints
    }

    constructor ()
      ensures Valid()
      ensures cpuData == [] && memoryData == [] && networkData == [] && prevNet == None
    {
      cpuData, memoryData, networkData := [], [], [];
      prevNet := None;
    }

    /** One pass of `monitor_system`'s loop: the usage since the last
        counters, one new point on each series, and the oldest point of all
        three dropped once the series are longer than 60. */
    method Step(r: Reading) returns (network: real)
      requires Valid()
      modifies this
      ensures Valid()
      ensures network == NetworkUsage(old(prevNet), r)
      ensures prevNet == Some(Counters(r.bytesSent, r.bytesRecv))
      ensures |old(cpuData)| < MaxPoints ==>
        cpuData == old(cpuData) + [r.cpu] && memoryData == old(memoryData) + [r.memory]
        && networkData == old(networkData) + [network]
      ensures |old(cpuData)| == MaxPoints ==>
        cpuData == old(cpuData)[1..] + [r.cpu] && memoryData == old(memoryData)[1..] + [r.memory]
        && networkData == old(networkData)[1..] + [network]
    {
      if prevNet.Some? {
        var sent := (r.bytesSent - prevNet.value.sent) as real / 1024.0 / 1024.0;
        var recv := (r.bytesRecv - prevNet.value.recv) as real / 1024.0 / 1024.0;
        network := sent + recv;
      } else {
        network := 0.0;
      }
      prevNet := Some(Counters(r.bytesSent, r.bytesRecv));
      cpuData := cpuData + [r.cpu];
      memoryData := memoryData + [r.memory];
      networkData := networkData + [network];
      if |cpuData| > MaxPoints {
        cpuData := cpuData[1..];
        memoryData := memoryData[1..];
        networkData := networkData[1..];
      }
    }
  }

  /** A series after its values were appended one at a time, the oldest
      dropped whenever it grows past `MaxPoints`. */
  function Window<T>(values: seq<T>): (s: seq<T>)
    ensures |s| == if |values| <= MaxPoints then |values| else MaxPoints
  {
    if values == [] then []
    else
      var q := Window(values[..|values| - 1]) + [values[|values| - 1]];
      if |q| > MaxPoints then q[1..] else q
  }

  /** After any run of values the series is the last 60 of them, oldest first. */
  lemma {:induction false} WindowIsLatest<T>(values: seq<T>)
    ensures Window(values) == Last(values, MaxPoints)
  {
    if values != [] {
      var init, x := values[..|values| - 1], values[|values| - 1];
      assert init + [x] == values;
      WindowIsLatest(init);
      AppendTrim(init, x);
    }
  }

  function CpuValues(readings: seq<Reading>): (v: seq<real>)
    ensures |v| == |readings| && forall i :: 0 <= i < |readings| ==> v[i] == readings[i].cpu
  {
    seq(|readings|, i requires 0 <= i < |readings| => readings[i].cpu)
  }

  function MemoryValues(readings: seq<Reading>): (v: seq<real>)
    ensures |v| == |readings| && forall i :: 0 <= i < |readings| ==> v[i] == readings[i].memory
  {
    seq(|readings|, i requires 0 <= i < |readings| => readings[i].memory)
  }

  function CountersOf(r: Reading): Counters
  {
    Counters(r.bytesSent, r.bytesRecv)
  }

  /** The network usage of each reading: 0 for the first, then the change
      since the reading before it. */
  function NetworkValues(readings: seq<Reading>): (v: seq<real>)
    ensures |v| == |readings|
    ensures forall i :: 0 <= i < |readings| ==> v[i] == NetworkUsage(PreviousCounters(readings, i), readings[i])
  {
    UsageSeries(readings, NetworkUsage)
  }

  /** `usage` applied to each reading and the counters before it. */
  function UsageSeries(readings: seq<Reading>, usage: (Option<Counters>, Reading) -> real): (v: seq<real>)
    ensures |v| == |readings|
    ensures forall i :: 0 <= i < |readings| ==> v[i] == usage(PreviousCounters(readings, i), readings[i])
  {
    if readings == [] then []
    else
      var n := |readings| - 1;
      var init := UsageSeries(readings[..n], usage);
      var v := init + [usage(PreviousCounters(readings, n), readings[n])];
      assert forall i :: 0 <= i < |readings| ==> v[i] == usage(PreviousCounters(readings, i), readings[i]) by {
        forall i | 0 <= i < |readings| ensures v[i] == usage(PreviousCounters(readings, i), readings[i]) {
          if i < n {
            assert v[i] == init[i];
            assert PreviousCounters(readings[..n], i) == PreviousCounters(readings, i);
          }
        }
      }
      v
  }

  /** The counters the monitor remembers when reading number `i` comes in. */
  function PreviousCounters(readings: seq<Reading>, i: nat): Option<Counters>
    requires i <= |readings|
  {
    if i == 0 then None else Some(CountersOf(readings[i - 1]))
  }

  /** The network series holds 0 for the first reading, then the megabytes
      moved since the reading before. */
  lemma NetworkValuesUsage(readings: seq<Reading>, i: nat)
    requires i < |readings|
    ensures i == 0 ==> NetworkValues(readings)[i] == 0.0
    ensures i > 0 ==> (NetworkValues(readings)[i] * Mega ==
      ((readings[i].bytesSent - readings[i - 1].bytesSent) + (readings[i].bytesRecv - readings[i - 1].bytesRecv)) as real)
  {
  }

  /** One more value moves the window as `Step` moves a series. */
  lemma WindowAppend<T>(values: seq<T>, x: T)
    ensures Window(values + [x]) ==
      if |Window(values)| < MaxPoints then Window(values) + [x] else Window(values)[1..] + [x]
  {
    assert (values + [x])[..|values|] == values;
  }

  lemma ValuesAppend(readings: seq<Reading>, i: nat)
    requires i < |readings|
    ensures CpuValues(readings[..i + 1]) == CpuValues(readings[..i]) + [readings[i].cpu]
    ensures MemoryValues(readings[..i + 1]) == MemoryValues(readings[..i]) + [readings[i].memory]
  {
  }

  lemma UsageSeriesAppend(readings: seq<Reading>, i: nat, usage: (Option<Counters>, Reading) -> real)
    requires i < |readings|
    ensures UsageSeries(readings[..i + 1], usage) == UsageSeries(readings[..i], usage)
      + [usage(PreviousCounters(readings, i), readings[i])]
  {
    var a := readings[..i + 1];
    assert a[..i] == readings[..i];
    assert PreviousCounters(a, i) == PreviousCounters(readings, i);
  }

  /** What one more reading does to the three series of the readings before it. */
  lemma WindowsStep(readings: seq<Reading>, i: nat, cpu: seq<real>, memory: seq<real>, network: seq<real>)
    requires i < |readings|
    requires cpu == Window(CpuValues(readings[..i]))
    requires memory == Window(MemoryValues(readings[..i]))
    requires network == Window(NetworkValues(readings[..i]))
    ensures var usage := NetworkUsage(PreviousCounters(readings, i), readings[i]);
      |cpu| < MaxPoints ==>
        Window(CpuValues(readings[..i + 1])) == cpu + [readings[i].cpu] &&
        Window(MemoryValues(readings[..i + 1])) == memory + [readings[i].memory] &&
        Window(NetworkValues(readings[..i + 1])) == network + [usage]
    ensures var usage := NetworkUsage(PreviousCounters(readings, i), readings[i]);
      |cpu| >= MaxPoints ==>
        Window(CpuValues(readings[..i + 1])) == cpu[1..] + [readings[i].cpu] &&
        Window(MemoryValues(readings[..i + 1])) == memory[1..] + [readings[i].memory] &&
        Window(NetworkValues(readings[..i + 1])) == network[1..] + [usage]
  {
    ValuesAppend(readings, i);
    UsageSeriesAppend(readings, i, NetworkUsage);
    WindowAppend(CpuValues(readings[..i]), readings[i].cpu);
    WindowAppend(MemoryValues(readings[..i]), readings[i].memory);
    WindowAppend(NetworkValues(readings[..i]), NetworkUsage(PreviousCounters(readings, i), readings[i]));
  }

  /** `monitor_system` over a run of readings: after it, each series holds
      the last 60 values of its reading, oldest first. */
  method Run(readings: seq<Reading>) returns (m: Monitor)
    ensures fresh(m) && m.Valid()
    ensures m.cpuData == Last(CpuValues(readings), MaxPoints)
    ensures m.memoryData == Last(MemoryValues(readings), MaxPoints)
    ensures m.networkData == Last(NetworkValues(readings), MaxPoints)
  {
    m := new Monitor();
    for i := 0 to |readings|
      invariant m.Valid()
      invariant m.cpuData == Window(CpuValues(readings[..i]))
      invariant m.memoryData == Window(MemoryValues(readings[..i]))
      invariant m.networkData == Window(NetworkValues(readings[..i]))
      invariant m.prevNet == PreviousCounters(readings, i)
    {
      WindowsStep(readings, i, m.cpuData, m.memoryData, m.networkData);
      var network := m.Step(readings[i]);
    }
    WindowsAtEnd(readings, m.cpuData, m.memoryData, m.networkData);
  }

  /** After the last reading the three series are the latest values. */
  lemma WindowsAtEnd(readings: seq<Reading>, cpu: seq<real>, memory: seq<real>, network: seq<real>)
    requires cpu == Window(CpuValues(readings[..|readings|]))
    requires memory == Window(MemoryValues(readings[..|readings|]))
    requires network == Window(NetworkValues(readings[..|readings|]))
    ensures cpu == Last(CpuValues(readings), MaxPoints)
    ensures memory == Last(MemoryValues(readings), MaxPoints)
    ensures network == Last(NetworkValues(readings), MaxPoints)
  {
    assert readings[..|readings|] == readings;
    WindowIsLatest(CpuValues(readings));
    WindowIsLatest(MemoryValues(readings));
    WindowIsLatest(NetworkValues(readings));
  }
}
