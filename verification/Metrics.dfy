/**
  The metrics collector (metrics_collector.py): counters and timings in memory beside an append-only
  log, and a summary that replays the log.
*/
module Metrics {
  import opened Options
  import opened Sorting

  /** `str` of an integer and of a float, and `int(str)`; only the round trip of integers matters. */
  datatype Decimal = Decimal(print_: int -> string, show: real -> string, parse: string -> Option<int>)

  ghost predicate RoundTrips(d: Decimal) {
    forall n: int :: d.parse(d.print_(n)) == Some(n)
  }

  datatype Record = Record(metricType: string, value: real, tags: map<string, string>)

  type Counters = map<string, int>
  type Timings = map<string, seq<real>>

  datatype Tally = Tally(counters: Counters, timings: Timings)

  const EMPTY := Tally(map[], map[])

  function CountOf(counters: Counters, name: string): int {
    if name in counters then counters[name] else 0
  }

  function TimesOf(timings: Timings, name: string): seq<real> {
    if name in timings then timings[name] else []
  }

  function Bump(t: Tally, name: string, amount: int): Tally {
    t.(counters := t.counters[name := CountOf(t.counters, name) + amount])
  }

  function AddTime(t: Tally, name: string, ms: real): Tally {
    t.(timings := t.timings[name := TimesOf(t.timings, name) + [ms]])
  }

  // ---- Recording ----

  datatype Call =
    | MessageProcessed(messageType: string, ms: real)
    | Error(errorType: string, message: string)
    | Inference(dataType: string, tokens: int, latency: real)
    | Sla(slaType: string, slaMs: real, actualMs: real)
    | Custom(metricType: string, value: real, tags: map<string, string>)

  function SlaCounter(compliant: bool): string {
    if compliant then "sla_compliant" else "sla_violation"
  }

  /** What a call does to the counters and timings in memory. */
  function Counted(t: Tally, call: Call): Tally {
    match call
    case MessageProcessed(kind, ms) =>
      AddTime(Bump(Bump(t, "messages_processed", 1), "messages." + kind, 1), "latency." + kind, ms)
    case Error(kind, _) =>
      Bump(Bump(t, "errors", 1), "errors." + kind, 1)
    case Inference(kind, tokens, latency) =>
      AddTime(Bump(Bump(Bump(t, "inference_calls", 1), "inference." + kind, 1), "inference_tokens", tokens),
              "inference_latency." + kind, latency)
    case Sla(kind, slaMs, actualMs) =>
      var counter := SlaCounter(actualMs <= slaMs);
      Bump(Bump(t, counter, 1), "sla." + kind + "." + counter, 1)
    case Custom(_, _, _) => t
  }

  /** Error messages are cut to 200 characters in the log. */
  function Cut(message: string): string {
    if |message| <= 200 then message else message[..200]
  }

  /** The log entry of a call. */
  function Logged(d: Decimal, call: Call): Record {
    match call
    case MessageProcessed(kind, ms) => Record("message_processed", ms, map["message_type" := kind])
    case Error(kind, message) => Record("error", 1.0, map["error_type" := kind, "message" := Cut(message)])
    case Inference(kind, tokens, latency) =>
      Record("inference_call", latency, map["data_type" := kind, "tokens" := d.print_(tokens)])
    case Sla(kind, slaMs, actualMs) =>
      Record("sla_compliance", if actualMs <= slaMs then 1.0 else 0.0,
             map["message_type" := kind, "sla_ms" := d.show(slaMs), "actual_ms" := d.show(actualMs)])
    case Custom(kind, value, tags) => Record(kind, value, tags)
  }

  // ---- Replaying ----

  function Tag(tags: map<string, string>, name: string, default: string): string {
    if name in tags then tags[name] else default
  }

  /** What replaying one log line adds; an unreadable token count abandons the rest of its line. */
  function Read(d: Decimal, t: Tally, r: Record): Tally {
    if r.metricType == "message_processed" then
      var kind := Tag(r.tags, "message_type", "unknown");
      AddTime(Bump(Bump(t, "messages_processed", 1), "messages." + kind, 1), "latency." + kind, r.value)
    else if r.metricType == "error" then
      Bump(Bump(t, "errors", 1), "errors." + Tag(r.tags, "error_type", "unknown"), 1)
    else if r.metricType == "inference_call" then
      var kind := Tag(r.tags, "data_type", "unknown");
      var counted := Bump(Bump(t, "inference_calls", 1), "inference." + kind, 1);
      var tokens := d.parse(Tag(r.tags, "tokens", "0"));
      if tokens.None? then counted
      else AddTime(Bump(counted, "inference_tokens", tokens.value), "inference_latency." + kind, r.value)
    else if r.metricType == "sla_compliance" then
      var counter := SlaCounter(r.value != 0.0);
      Bump(Bump(t, counter, 1), "sla." + Tag(r.tags, "message_type", "unknown") + "." + counter, 1)
    else t
  }

  function Replay(d: Decimal, log: seq<Record>): Tally {
    if log == [] then EMPTY else Read(d, Replay(d, log[..|log| - 1]), log[|log| - 1])
  }

  // ---- Statistics of one timing ----

  /** Over exact numbers; the source rounds each figure to two digits for display. */
  datatype Stats = Stats(count: nat, avg: real, min: real, max: real, p95: real)

  function P95(s: seq<real>): real
    requires s != []
  {
    SortedIsOrderedPermutation(s);
    Sorted(s)[|s| * 19 / 20]
  }

  function StatsOf(s: seq<real>): Stats
    requires s != []
  {
    Stats(|s|, Sum(s) / (|s| as real), Min(s), Max(s),
          if |s| >= 20 then P95(s) else Max(s))
  }

  function Combined(persisted: Timings, memory: Timings, name: string): seq<real> {
    TimesOf(persisted, name) + TimesOf(memory, name)
  }

  function SummaryOf(persisted: Timings, memory: Timings): map<string, Stats> {
    map name | name in persisted.Keys + memory.Keys && Combined(persisted, memory, name) != []
      :: StatsOf(Combined(persisted, memory, name))
  }

  // ---- The collector ----

  /** The metrics file, shared by every collector of the role. */
  class LogFile {
    var lines: seq<Record>

    constructor ()
      ensures lines == []
    {
      lines := [];
    }
  }

  class MetricsCollector {
    const decimal: Decimal
    const file: LogFile
    var counters: Counters
    var timings: Timings

    constructor (decimal: Decimal, file: LogFile)
      ensures this.decimal == decimal && this.file == file && Memory() == EMPTY
    {
      this.decimal, this.file := decimal, file;
      counters, timings := map[], map[];
    }

    ghost function Memory(): Tally
      reads this
    {
      Tally(counters, timings)
    }

    method IncrementCounter(name: string, amount: int)
      modifies this`counters
      ensures Memory() == Bump(old(Memory()), name, amount)
    {
      counters := counters[name := (if name in counters then counters[name] else 0) + amount];
    }

    method RecordTiming(name: string, ms: real)
      modifies this`timings
      ensures Memory() == AddTime(old(Memory()), name, ms)
    {
      timings := timings[name := (if name in timings then timings[name] else []) + [ms]];
    }

    method Write(r: Record)
      modifies file
      ensures file.lines == old(file.lines) + [r]
    {
      file.lines := file.lines + [r];
    }

    method RecordMessageProcessed(messageType: string, ms: real)
      modifies this, file
      ensures Memory() == Counted(old(Memory()), MessageProcessed(messageType, ms))
      ensures file.lines == old(file.lines) + [Logged(decimal, MessageProcessed(messageType, ms))]
    {
      IncrementCounter("messages_processed", 1);
      IncrementCounter("messages." + messageType, 1);
      RecordTiming("latency." + messageType, ms);
      Write(Record("message_processed", ms, map["message_type" := messageType]));
    }

    method RecordError(errorType: string, message: string)
      modifies this, file
      ensures Memory() == Counted(old(Memory()), Error(errorType, message))
      ensures file.lines == old(file.lines) + [Logged(decimal, Error(errorType, message))]
    {
      IncrementCounter("errors", 1);
      IncrementCounter("errors." + errorType, 1);
      Write(Record("error", 1.0, map["error_type" := errorType,
                                     "message" := if |message| <= 200 then message else message[..200]]));
    }

    method RecordInferenceCall(dataType: string, tokens: int, latency: real)
      modifies this, file
      ensures Memory() == Counted(old(Memory()), Inference(dataType, tokens, latency))
      ensures file.lines == old(file.lines) + [Logged(decimal, Inference(dataType, tokens, latency))]
    {
      IncrementCounter("inference_calls", 1);
      IncrementCounter("inference." + dataType, 1);
      IncrementCounter("inference_tokens", tokens);
      RecordTiming("inference_latency." + dataType, latency);
      Write(Record("inference_call", latency, map["data_type" := dataType, "tokens" := decimal.print_(tokens)]));
    }

    method RecordSlaCompliance(messageType: string, slaMs: real, actualMs: real)
      modifies this, file
      ensures Memory() == Counted(old(Memory()), Sla(messageType, slaMs, actualMs))
      ensures file.lines == old(file.lines) + [Logged(decimal, Sla(messageType, slaMs, actualMs))]
    {
      var compliant := actualMs <= slaMs;
      var counter := if compliant then "sla_compliant" else "sla_violation";
      IncrementCounter(counter, 1);
      IncrementCounter("sla." + messageType + "." + counter, 1);
      Write(Record("sla_compliance", if compliant then 1.0 else 0.0,
                   map["message_type" := messageType, "sla_ms" := decimal.show(slaMs),
                       "actual_ms" := decimal.show(actualMs)]));
    }

    method RecordCustom(metricType: string, value: real, tags: map<string, string>)
      modifies file
      ensures file.lines == old(file.lines) + [Logged(decimal, Custom(metricType, value, tags))]
    {
      Write(Record(metricType, value, tags));
    }

    /** Replays the file line by line, then lets the counters in memory take precedence. */
    method GetSummary() returns (merged: Counters, stats: map<string, Stats>)
      ensures merged == Replay(decimal, file.lines).counters + counters
      ensures stats == SummaryOf(Replay(decimal, file.lines).timings, timings)
    {
      var persisted := EMPTY;
      for i := 0 to |file.lines|
        invariant persisted == Replay(decimal, file.lines[..i])
      {
        assert file.lines[..i + 1][..i] == file.lines[..i];
        persisted := ReadLine(persisted, file.lines[i]);
      }
      assert file.lines[..|file.lines|] == file.lines;
      merged := persisted.counters + counters;
      stats := map[];
      var left := persisted.timings.Keys + timings.Keys;
      ghost var all := left;
      while left != {}
        invariant left <= all
        invariant stats.Keys == set name | name in all - left && Combined(persisted.timings, timings, name) != []
        invariant forall name :: name in stats ==> stats[name] == StatsOf(Combined(persisted.timings, timings, name))
        decreases left
      {
        var name :| name in left;
        left := left - {name};
        var combined := TimesOf(persisted.timings, name) + TimesOf(timings, name);
        if combined != [] {
          stats := stats[name := StatsOf(combined)];
        }
      }
    }

    method ReadLine(t: Tally, r: Record) returns (next: Tally)
      ensures next == Read(decimal, t, r)
    {
      next := t;
      if r.metricType == "message_processed" {
        next := Bump(next, "messages_processed", 1);
        var kind := Tag(r.tags, "message_type", "unknown");
        next := Bump(next, "messages." + kind, 1);
        next := AddTime(next, "latency." + kind, r.value);
      } else if r.metricType == "error" {
        next := Bump(next, "errors", 1);
        next := Bump(next, "errors." + Tag(r.tags, "error_type", "unknown"), 1);
      } else if r.metricType == "inference_call" {
        next := Bump(next, "inference_calls", 1);
        var kind := Tag(r.tags, "data_type", "unknown");
        next := Bump(next, "inference." + kind, 1);
        var tokens := decimal.parse(Tag(r.tags, "tokens", "0"));
        if tokens.None? {
          return;
        }
        next := Bump(next, "inference_tokens", tokens.value);
        next := AddTime(next, "inference_latency." + kind, r.value);
      } else if r.metricType == "sla_compliance" {
        var counter := if r.value != 0.0 then "sla_compliant" else "sla_violation";
        next := Bump(next, counter, 1);
        next := Bump(next, "sla." + Tag(r.tags, "message_type", "unknown") + "." + counter, 1);
      }
    }
  }

  // ---- Replay agrees with memory ----

  function MemoryAfter(calls: seq<Call>): Tally {
    if calls == [] then EMPTY else Counted(MemoryAfter(calls[..|calls| - 1]), calls[|calls| - 1])
  }

  function LogAfter(d: Decimal, calls: seq<Call>): seq<Record> {
    if calls == [] then [] else LogAfter(d, calls[..|calls| - 1]) + [Logged(d, calls[|calls| - 1])]
  }

  /** A custom metric under one of the types that replay counts. */
  predicate Reserved(call: Call) {
    call.Custom? && (call.metricType == "message_processed" || call.metricType == "error"
                     || call.metricType == "inference_call" || call.metricType == "sla_compliance")
  }

  lemma ReadIsCounted(d: Decimal, t: Tally, call: Call)
    requires RoundTrips(d) && !Reserved(call)
    ensures Read(d, t, Logged(d, call)) == Counted(t, call)
  {
  }

  lemma {:induction false} ReplayIsMemory(d: Decimal, calls: seq<Call>)
    requires RoundTrips(d) && forall i :: 0 <= i < |calls| ==> !Reserved(calls[i])
    ensures Replay(d, LogAfter(d, calls)) == MemoryAfter(calls)
  {
    if calls != [] {
      var front := calls[..|calls| - 1];
      ReplayIsMemory(d, front);
      assert LogAfter(d, calls)[..|calls| - 1] == LogAfter(d, front) by {
        LogLength(d, front);
      }
      LogLength(d, calls);
      ReadIsCounted(d, MemoryAfter(front), calls[|calls| - 1]);
    }
  }

  lemma {:induction false} LogLength(d: Decimal, calls: seq<Call>)
    ensures |LogAfter(d, calls)| == |calls|
  {
    if calls != [] {
      LogLength(d, calls[..|calls| - 1]);
    }
  }

  /** The counters that every counted entry raises by one. */
  function Headline(t: Tally): int {
    CountOf(t.counters, "messages_processed") + CountOf(t.counters, "errors") + CountOf(t.counters, "inference_calls")
    + CountOf(t.counters, "sla_compliant") + CountOf(t.counters, "sla_violation")
  }

  predicate IsHeadline(name: string) {
    name == "messages_processed" || name == "errors" || name == "inference_calls"
    || name == "sla_compliant" || name == "sla_violation"
  }

  lemma DetailNames(kind: string, counter: string)
    ensures !IsHeadline("messages." + kind) && !IsHeadline("errors." + kind) && !IsHeadline("inference." + kind)
    ensures !IsHeadline("sla." + kind + "." + counter) && !IsHeadline("inference_tokens")
  {
    assert ("messages." + kind)[8] == '.' && "messages_processed"[8] != '.' && ("messages." + kind)[0] == 'm';
    assert ("errors." + kind)[6] == '.' && |"errors"| == 6 && ("errors." + kind)[0] == 'e';
    assert ("inference." + kind)[9] == '.' && "inference_calls"[9] != '.' && ("inference." + kind)[0] == 'i';
    assert ("sla." + kind + "." + counter)[3] == '.' && "sla_compliant"[3] != '.' && "sla_violation"[3] != '.';
    assert ("sla." + kind + "." + counter)[0] == 's';
  }

  lemma BumpHeadline(t: Tally, name: string, amount: int)
    ensures Headline(Bump(t, name, amount)) == Headline(t) + if IsHeadline(name) then amount else 0
  {
  }

  lemma CountedHeadline(t: Tally, call: Call)
    ensures Headline(Counted(t, call)) == Headline(t) + if call.Custom? then 0 else 1
  {
    match call
    case MessageProcessed(kind, ms) =>
      DetailNames(kind, "");
      BumpHeadline(t, "messages_processed", 1);
      BumpHeadline(Bump(t, "messages_processed", 1), "messages." + kind, 1);
    case Error(kind, _) =>
      DetailNames(kind, "");
      BumpHeadline(t, "errors", 1);
      BumpHeadline(Bump(t, "errors", 1), "errors." + kind, 1);
    case Inference(kind, tokens, latency) =>
      DetailNames(kind, "");
      var t1 := Bump(t, "inference_calls", 1);
      var t2 := Bump(t1, "inference." + kind, 1);
      BumpHeadline(t, "inference_calls", 1);
      BumpHeadline(t1, "inference." + kind, 1);
      BumpHeadline(t2, "inference_tokens", tokens);
    case Sla(kind, slaMs, actualMs) =>
      var counter := SlaCounter(actualMs <= slaMs);
      DetailNames(kind, counter);
      BumpHeadline(t, counter, 1);
      BumpHeadline(Bump(t, counter, 1), "sla." + kind + "." + counter, 1);
    case Custom(_, _, _) =>
  }

  lemma ReadHeadline(d: Decimal, t: Tally, call: Call)
    requires RoundTrips(d)
    ensures Headline(Read(d, t, Logged(d, call))) == Headline(t) + if call.Custom? && !Reserved(call) then 0 else 1
  {
    if !Reserved(call) {
      ReadIsCounted(d, t, call);
      CountedHeadline(t, call);
    } else {
      var tags := call.tags;
      if call.metricType == "message_processed" {
        CountedHeadline(t, MessageProcessed(Tag(tags, "message_type", "unknown"), call.value));
      } else if call.metricType == "error" {
        CountedHeadline(t, Error(Tag(tags, "error_type", "unknown"), ""));
      } else if call.metricType == "inference_call" {
        var kind := Tag(tags, "data_type", "unknown");
        var tokens := d.parse(Tag(tags, "tokens", "0"));
        DetailNames(kind, "");
        BumpHeadline(t, "inference_calls", 1);
        BumpHeadline(Bump(t, "inference_calls", 1), "inference." + kind, 1);
        if tokens.Some? {
          BumpHeadline(Bump(Bump(t, "inference_calls", 1), "inference." + kind, 1), "inference_tokens", tokens.value);
        }
      } else {
        var counter := SlaCounter(call.value != 0.0);
        DetailNames(Tag(tags, "message_type", "unknown"), counter);
        BumpHeadline(t, counter, 1);
        BumpHeadline(Bump(t, counter, 1), "sla." + Tag(tags, "message_type", "unknown") + "." + counter, 1);
      }
    }
  }

  function ReservedCount(calls: seq<Call>): nat {
    if calls == [] then 0
    else ReservedCount(calls[..|calls| - 1]) + if Reserved(calls[|calls| - 1]) then 1 else 0
  }

  lemma ReplayLast(d: Decimal, calls: seq<Call>)
    requires calls != []
    ensures var front := calls[..|calls| - 1];
      Replay(d, LogAfter(d, calls)) == Read(d, Replay(d, LogAfter(d, front)), Logged(d, calls[|calls| - 1]))
  {
    LogLength(d, calls);
    assert LogAfter(d, calls)[..|calls| - 1] == LogAfter(d, calls[..|calls| - 1]);
  }

  lemma {:induction false} ReplayOvercounts(d: Decimal, calls: seq<Call>)
    requires RoundTrips(d)
    ensures Headline(Replay(d, LogAfter(d, calls))) == Headline(MemoryAfter(calls)) + ReservedCount(calls)
  {
    if calls != [] {
      var front, last := calls[..|calls| - 1], calls[|calls| - 1];
      ReplayOvercounts(d, front);
      ReplayLast(d, calls);
      ReadHeadline(d, Replay(d, LogAfter(d, front)), last);
      CountedHeadline(MemoryAfter(front), last);
    }
  }

  lemma {:induction false} NoneReserved(calls: seq<Call>)
    ensures ReservedCount(calls) == 0 <==> forall i :: 0 <= i < |calls| ==> !Reserved(calls[i])
  {
    if calls != [] {
      var front := calls[..|calls| - 1];
      NoneReserved(front);
      assert forall i :: 0 <= i < |front| ==> calls[i] == front[i];
    }
  }

  /**
    Replaying the log of a run from an empty file gives exactly the counters in memory if and only
    if no custom metric used a type that replay counts.
  */
  lemma ReplayAgreesIff(d: Decimal, calls: seq<Call>)
    requires RoundTrips(d)
    ensures Replay(d, LogAfter(d, calls)).counters == MemoryAfter(calls).counters
      <==> forall i :: 0 <= i < |calls| ==> !Reserved(calls[i])
  {
    ReplayOvercounts(d, calls);
    NoneReserved(calls);
    if forall i :: 0 <= i < |calls| ==> !Reserved(calls[i]) {
      ReplayIsMemory(d, calls);
    }
  }

  // ---- The recorder sees every sample twice ----

  function Twice(s: seq<real>): (r: seq<real>)
    ensures |r| == 2 * |s|
    ensures forall j :: 0 <= j < |r| ==> r[j] == s[j / 2]
  {
    seq(2 * |s|, j requires 0 <= j < 2 * |s| => s[j / 2])
  }

  lemma {:induction false} TwiceMultiset(s: seq<real>)
    ensures multiset(Twice(s)) == multiset(s) + multiset(s)
  {
    if s != [] {
      var front, last := s[..|s| - 1], s[|s| - 1];
      TwiceMultiset(front);
      assert s == front + [last];
      assert Twice(s) == Twice(front) + [last, last];
    } else {
      assert Twice(s) == [];
    }
  }

  lemma SortedDoubled(s: seq<real>)
    ensures Sorted(s + s) == Twice(Sorted(s))
  {
    var r := Sorted(s);
    SortedIsOrderedPermutation(s);
    SortedIsOrderedPermutation(s + s);
    TwiceMultiset(r);
    TwiceOrdered(r);
    OrderedUnique(Sorted(s + s), Twice(r));
  }

  lemma TwiceOrdered(r: seq<real>)
    requires Ordered(r)
    ensures Ordered(Twice(r))
  {
    forall i, j | 0 <= i < j < |Twice(r)|
      ensures Twice(r)[i] <= Twice(r)[j]
    {
      assert i / 2 <= j / 2;
    }
  }

  lemma SameAverage(sum: real, n: nat)
    requires n > 0
    ensures (sum + sum) / ((2 * n) as real) == sum / (n as real)
  {
    var m := n as real;
    assert (2 * n) as real == 2.0 * m;
    assert (sum / m) * m == sum;
    assert (sum / m) * (2.0 * m) == sum + sum;
  }

  lemma SameExtremes(s: seq<real>)
    requires s != []
    ensures Min(s + s) == Min(s) && Max(s + s) == Max(s)
  {
    MinMaxBound(s);
    MinMaxBound(s + s);
    assert forall x :: x in s + s <==> x in s;
  }

  lemma HalfIndex(n: nat)
    ensures (2 * n * 19 / 20) / 2 == n * 19 / 20
    ensures 10 <= n < 20 ==> n * 19 / 20 == n - 1
  {
  }

  lemma SameP95(s: seq<real>)
    requires 2 * |s| >= 20
    ensures P95(s + s) == if |s| >= 20 then P95(s) else Max(s)
  {
    SortedIsOrderedPermutation(s);
    SortedIsOrderedPermutation(s + s);
    SortedDoubled(s);
    HalfIndex(|s|);
    SortedEnds(s);
    TwiceAt(Sorted(s), Sorted(s + s), |s + s| * 19 / 20);
  }

  lemma TwiceAt(r: seq<real>, doubled: seq<real>, j: nat)
    requires doubled == Twice(r) && j < |doubled|
    ensures doubled[j] == r[j / 2]
  {
  }

  /** Doubling every sample doubles the count and changes no other figure. */
  lemma DoubledStats(s: seq<real>)
    requires s != []
    ensures StatsOf(s + s) == StatsOf(s).(count := 2 * |s|)
  {
    SumConcat(s, s);
    SameAverage(Sum(s), |s|);
    SameExtremes(s);
    if 2 * |s| >= 20 {
      SameP95(s);
    }
  }

  lemma {:induction false} NoEmptyTimings(calls: seq<Call>)
    ensures forall name :: name in MemoryAfter(calls).timings ==> MemoryAfter(calls).timings[name] != []
  {
    if calls != [] {
      NoEmptyTimings(calls[..|calls| - 1]);
    }
  }

  /**
    A fresh reader of the file and the recording process report the same counters, and the same
    average, minimum, maximum and 95th percentile of every timing; the recorder counts each sample
    twice.
  */
  lemma ReaderAndRecorderAgree(d: Decimal, calls: seq<Call>)
    requires RoundTrips(d) && forall i :: 0 <= i < |calls| ==> !Reserved(calls[i])
    ensures var persisted, memory := Replay(d, LogAfter(d, calls)), MemoryAfter(calls);
      && persisted.counters + memory.counters == persisted.counters
      && SameButCountedTwice(memory.timings, SummaryOf(persisted.timings, map[]),
                             SummaryOf(persisted.timings, memory.timings))
  {
    ReplayIsMemory(d, calls);
    NoEmptyTimings(calls);
    var memory := MemoryAfter(calls);
    SummaryPair(memory.timings);
    OntoItself(memory.counters);
  }

  lemma OntoItself(c: Counters)
    ensures c + c == c
  {
  }

  /** Both summaries report every timing; they differ in the count alone. */
  ghost predicate SameButCountedTwice(t: Timings, reader: map<string, Stats>, recorder: map<string, Stats>) {
    && reader.Keys == t.Keys && recorder.Keys == t.Keys
    && forall name :: name in t ==>
         && t[name] != [] && reader[name] == StatsOf(t[name])
         && recorder[name] == reader[name].(count := 2 * reader[name].count)
  }

  lemma CombinedWith(t: Timings, name: string)
    requires name in t && t[name] != []
    ensures Combined(t, map[], name) == t[name] && Combined(t, t, name) == t[name] + t[name]
    ensures StatsOf(Combined(t, t, name)) == StatsOf(t[name]).(count := 2 * |t[name]|)
  {
    DoubledStats(t[name]);
  }

  lemma SummaryAt(t: Timings, memory: Timings, name: string)
    requires name in t && t[name] != []
    ensures Combined(t, memory, name) != [] && name in SummaryOf(t, memory)
    ensures SummaryOf(t, memory)[name] == StatsOf(Combined(t, memory, name))
  {
  }

  lemma SummaryPair(t: Timings)
    requires forall name :: name in t ==> t[name] != []
    ensures SameButCountedTwice(t, SummaryOf(t, map[]), SummaryOf(t, t))
  {
    var reader, recorder := SummaryOf(t, map[]), SummaryOf(t, t);
    forall name | name in t
      ensures name in reader && name in recorder
      ensures reader[name] == StatsOf(t[name]) && recorder[name] == reader[name].(count := 2 * reader[name].count)
    {
      SummaryAt(t, map[], name);
      SummaryAt(t, t, name);
      CombinedWith(t, name);
    }
    assert reader.Keys == t.Keys && recorder.Keys == t.Keys;
  }
}
