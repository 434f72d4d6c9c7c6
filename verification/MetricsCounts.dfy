/** What the counters, timings and statistics of the metrics collector say about the calls recorded. */
module MetricsCounts {
  import opened Options
  import opened Sorting
  import opened Metrics

  // ---- Counters ----

  function CountCalls(calls: seq<Call>, wanted: Call -> bool): nat {
    if calls == [] then 0
    else CountCalls(calls[..|calls| - 1], wanted) + if wanted(calls[|calls| - 1]) then 1 else 0
  }

  function Tokens(calls: seq<Call>): int {
    if calls == [] then 0
    else
      var last := calls[|calls| - 1];
      Tokens(calls[..|calls| - 1]) + if last.Inference? then last.tokens else 0
  }

  lemma BumpCount(t: Tally, name: string, amount: int, other: string)
    ensures CountOf(Bump(t, name, amount).counters, other)
         == CountOf(t.counters, other) + if name == other then amount else 0
  {
  }

  /** No detailed counter has the name of one of the six overall ones. */
  lemma DetailIsNotOverall(kind: string, counter: string)
    ensures !IsOverall("messages." + kind) && !IsOverall("errors." + kind) && !IsOverall("inference." + kind)
    ensures !IsOverall("sla." + kind + "." + counter)
  {
    DetailNames(kind, counter);
    assert ("messages." + kind)[0] == 'm' && ("errors." + kind)[0] == 'e' && ("sla." + kind + "." + counter)[0] == 's';
    assert ("inference." + kind)[9] == '.' && "inference_tokens"[9] == '_';
  }

  predicate IsOverall(name: string) {
    IsHeadline(name) || name == "inference_tokens"
  }

  /** What one call adds to an overall counter. */
  function Overall(call: Call, name: string): int {
    match call
    case MessageProcessed(_, _) => if name == "messages_processed" then 1 else 0
    case Error(_, _) => if name == "errors" then 1 else 0
    case Inference(_, tokens, _) =>
      if name == "inference_calls" then 1 else if name == "inference_tokens" then tokens else 0
    case Sla(_, slaMs, actualMs) =>
      if name == (if actualMs <= slaMs then "sla_compliant" else "sla_violation") then 1 else 0
    case Custom(_, _, _) => 0
  }

  lemma CountedOverall(t: Tally, call: Call, name: string)
    requires IsOverall(name)
    ensures CountOf(Counted(t, call).counters, name) == CountOf(t.counters, name) + Overall(call, name)
  {
    match call
    case MessageProcessed(kind, ms) =>
      DetailIsNotOverall(kind, "");
      BumpCount(t, "messages_processed", 1, name);
      BumpCount(Bump(t, "messages_processed", 1), "messages." + kind, 1, name);
    case Error(kind, _) =>
      DetailIsNotOverall(kind, "");
      BumpCount(t, "errors", 1, name);
      BumpCount(Bump(t, "errors", 1), "errors." + kind, 1, name);
    case Inference(kind, tokens, latency) =>
      DetailIsNotOverall(kind, "");
      var t1 := Bump(t, "inference_calls", 1);
      BumpCount(t, "inference_calls", 1, name);
      BumpCount(t1, "inference." + kind, 1, name);
      BumpCount(Bump(t1, "inference." + kind, 1), "inference_tokens", tokens, name);
    case Sla(kind, slaMs, actualMs) =>
      var counter := SlaCounter(actualMs <= slaMs);
      DetailIsNotOverall(kind, counter);
      BumpCount(t, counter, 1, name);
      BumpCount(Bump(t, counter, 1), "sla." + kind + "." + counter, 1, name);
    case Custom(_, _, _) =>
  }

  function OverallSum(calls: seq<Call>, name: string): int {
    if calls == [] then 0
    else OverallSum(calls[..|calls| - 1], name) + Overall(calls[|calls| - 1], name)
  }

  lemma {:induction false} OverallSums(calls: seq<Call>, name: string)
    requires IsOverall(name)
    ensures CountOf(MemoryAfter(calls).counters, name) == OverallSum(calls, name)
  {
    if calls != [] {
      OverallSums(calls[..|calls| - 1], name);
      CountedOverall(MemoryAfter(calls[..|calls| - 1]), calls[|calls| - 1], name);
    }
  }

  lemma {:induction false} SumIsCount(calls: seq<Call>, name: string, wanted: Call -> bool)
    requires forall call :: Overall(call, name) == if wanted(call) then 1 else 0
    ensures OverallSum(calls, name) == CountCalls(calls, wanted)
  {
    if calls != [] {
      SumIsCount(calls[..|calls| - 1], name, wanted);
    }
  }

  lemma {:induction false} SumIsTokens(calls: seq<Call>)
    ensures OverallSum(calls, "inference_tokens") == Tokens(calls)
  {
    if calls != [] {
      SumIsTokens(calls[..|calls| - 1]);
    }
  }

  /** After any calls the overall counters are the numbers of calls of each kind, and the tokens of all inferences. */
  lemma CountersCount(calls: seq<Call>)
    ensures var counters := MemoryAfter(calls).counters;
      && CountOf(counters, "messages_processed") == CountCalls(calls, (c: Call) => c.MessageProcessed?)
      && CountOf(counters, "errors") == CountCalls(calls, (c: Call) => c.Error?)
      && CountOf(counters, "inference_calls") == CountCalls(calls, (c: Call) => c.Inference?)
      && CountOf(counters, "inference_tokens") == Tokens(calls)
      && CountOf(counters, "sla_compliant") == CountCalls(calls, (c: Call) => c.Sla? && c.actualMs <= c.slaMs)
      && CountOf(counters, "sla_violation") == CountCalls(calls, (c: Call) => c.Sla? && c.actualMs > c.slaMs)
  {
    OverallSums(calls, "messages_processed");
    OverallSums(calls, "errors");
    OverallSums(calls, "inference_calls");
    OverallSums(calls, "inference_tokens");
    OverallSums(calls, "sla_compliant");
    OverallSums(calls, "sla_violation");
    SumIsCount(calls, "messages_processed", (c: Call) => c.MessageProcessed?);
    SumIsCount(calls, "errors", (c: Call) => c.Error?);
    SumIsCount(calls, "inference_calls", (c: Call) => c.Inference?);
    SumIsCount(calls, "sla_compliant", (c: Call) => c.Sla? && c.actualMs <= c.slaMs);
    SumIsCount(calls, "sla_violation", (c: Call) => c.Sla? && c.actualMs > c.slaMs);
    SumIsTokens(calls);
  }

  // ---- Counters and timings of one kind ----

  lemma SameKind(prefix: string, a: string, b: string)
    ensures prefix + a == prefix + b <==> a == b
  {
    assert (prefix + a)[|prefix|..] == a && (prefix + b)[|prefix|..] == b;
  }

  /** The names bumped for other things than messages of this kind. */
  lemma NotThatMessage(kind: string, other: string, counter: string)
    ensures "messages." + kind !in {"messages_processed", "errors", "inference_calls", "inference_tokens"}
    ensures "messages." + kind !in {"errors." + other, "inference." + other, "sla." + other + "." + counter}
    ensures "messages." + kind !in {"sla_compliant", "sla_violation"}
  {
    var name := "messages." + kind;
    assert name[0] == 'm' && name[8] == '.' && "messages_processed"[8] == '_';
    assert ("errors." + other)[0] == 'e' && ("inference." + other)[0] == 'i';
    assert ("sla." + other + "." + counter)[0] == 's';
  }

  lemma CountedMessage(t: Tally, call: Call, kind: string)
    ensures CountOf(Counted(t, call).counters, "messages." + kind)
         == CountOf(t.counters, "messages." + kind)
            + if call.MessageProcessed? && call.messageType == kind then 1 else 0
  {
    var name := "messages." + kind;
    match call
    case MessageProcessed(other, ms) =>
      NotThatMessage(kind, "", "");
      SameKind("messages.", other, kind);
      BumpCount(t, "messages_processed", 1, name);
      BumpCount(Bump(t, "messages_processed", 1), "messages." + other, 1, name);
    case Error(other, _) =>
      NotThatMessage(kind, other, "");
      BumpCount(t, "errors", 1, name);
      BumpCount(Bump(t, "errors", 1), "errors." + other, 1, name);
    case Inference(other, tokens, latency) =>
      NotThatMessage(kind, other, "");
      var t1 := Bump(t, "inference_calls", 1);
      BumpCount(t, "inference_calls", 1, name);
      BumpCount(t1, "inference." + other, 1, name);
      BumpCount(Bump(t1, "inference." + other, 1), "inference_tokens", tokens, name);
    case Sla(other, slaMs, actualMs) =>
      var counter := SlaCounter(actualMs <= slaMs);
      NotThatMessage(kind, other, counter);
      BumpCount(t, counter, 1, name);
      BumpCount(Bump(t, counter, 1), "sla." + other + "." + counter, 1, name);
    case Custom(_, _, _) =>
  }

  /** The processing times of the messages of a kind, in order. */
  function MessageTimes(calls: seq<Call>, kind: string): seq<real> {
    if calls == [] then []
    else
      var last := calls[|calls| - 1];
      var before := MessageTimes(calls[..|calls| - 1], kind);
      if last.MessageProcessed? && last.messageType == kind then before + [last.ms] else before
  }

  lemma CountedTime(t: Tally, call: Call, kind: string)
    ensures TimesOf(Counted(t, call).timings, "latency." + kind)
         == TimesOf(t.timings, "latency." + kind)
            + if call.MessageProcessed? && call.messageType == kind then [call.ms] else []
  {
    match call
    case MessageProcessed(other, ms) => SameKind("latency.", other, kind);
    case Inference(other, _, _) =>
      assert ("inference_latency." + other)[0] == 'i' && ("latency." + kind)[0] == 'l';
    case _ =>
  }

  /** Per kind of message: how many, and each one's time, in the order recorded. */
  lemma {:induction false} KindCounts(calls: seq<Call>, kind: string)
    ensures CountOf(MemoryAfter(calls).counters, "messages." + kind) == |MessageTimes(calls, kind)|
    ensures TimesOf(MemoryAfter(calls).timings, "latency." + kind) == MessageTimes(calls, kind)
  {
    if calls != [] {
      var front, last := calls[..|calls| - 1], calls[|calls| - 1];
      KindCounts(front, kind);
      CountedMessage(MemoryAfter(front), last, kind);
      CountedTime(MemoryAfter(front), last, kind);
    }
  }

  // ---- Statistics ----

  lemma AverageMeaning(s: seq<real>)
    requires s != []
    ensures IsAverage(StatsOf(s).avg, s)
  {
    QuotientTimes(Sum(s), |s| as real);
  }

  /**
    With the samples in order: the first is the minimum, the last the maximum, and from 20 samples on
    the 95th percentile is the one that 19 twentieths of them lie before; with fewer it is the last.
  */
  lemma StatsMeaning(samples: seq<real>, s: seq<real>, k: nat)
    requires samples != [] && Arrangement(s, samples)
    requires 20 * k <= 19 * |samples| < 20 * (k + 1)
    ensures var stats := StatsOf(samples);
      && s != [] && k < |s| && stats.count == |samples| && stats.min == s[0] && stats.max == s[|s| - 1]
      && stats.p95 == if |samples| < 20 then s[|s| - 1] else s[k]
  {
    ArrangementIsSorted(s, samples);
    SortedEnds(samples);
    assert k == |samples| * 19 / 20;
  }
}
