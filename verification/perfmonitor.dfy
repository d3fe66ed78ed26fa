/**
  The operational-analysis registry (perfmonitor.go): a map from resource
  tag to flow counter, filled in by arrival and completion events.

  The state changes are given twice: as functions on the map
  (AfterArrival, AfterCompletion, Replay), about which the lemmas speak,
  and as the methods of the class PerfMonitor, which update the map in
  place and are specified by those functions.
 */
module PerfMonitors {
  import opened GoWords
  import opened Results
  import opened JobFlows
  import opened ResourceTags

  /** Go's `PerfMonitor`, a `map[ResourceTag]*JobFlow`, as the values it holds. */
  type FlowMap = map<ResourceTag, JobFlow>

  /**
    The map after an arrival for tag: a new counter with one arrival if tag
    had none, else that counter with one more arrival; every other entry,
    and every other field, as before.
   */
  function AfterArrival(m: FlowMap, tag: ResourceTag): (r: FlowMap)
    ensures r.Keys == m.Keys + {tag}
    ensures forall t :: t in m && t != tag ==> r[t] == m[t]
    ensures tag !in m ==> r[tag] == JobFlow(1, 0, 0)
    ensures tag in m ==> (r[tag].arrivals == Inc(m[tag].arrivals)
                          && r[tag].busy == m[tag].busy
                          && r[tag].completions == m[tag].completions)
  {
    if tag in m then
      var jf := m[tag];
      m[tag := jf.(arrivals := Inc(jf.arrivals))]
    else
      m[tag := ZeroFlow.(arrivals := 1)]
  }

  /**
    The map after a completion for tag: that counter with one more
    completion if tag has one; if not, the map is unchanged and no entry is
    created.
   */
  function AfterCompletion(m: FlowMap, tag: ResourceTag): (r: FlowMap)
    ensures r.Keys == m.Keys
    ensures forall t :: t in m && t != tag ==> r[t] == m[t]
    ensures tag !in m ==> r == m
    ensures tag in m ==> (r[tag].completions == Inc(m[tag].completions)
                          && r[tag].arrivals == m[tag].arrivals
                          && r[tag].busy == m[tag].busy)
  {
    if tag in m then
      var jf := m[tag];
      m[tag := jf.(completions := Inc(jf.completions))]
    else
      m
  }

  /** The registry, updated in place. */
  class PerfMonitor {
    var flows: FlowMap

    /** An empty registry. */
    constructor ()
      ensures flows == map[]
    {
      flows := map[];
    }

    /** Records an arrival; the time stamp is not used. */
    method Arrival(tag: ResourceTag, timeStamp: uint64)
      modifies this
      ensures flows == AfterArrival(old(flows), tag)
    {
      if tag in flows {
        var jf := flows[tag];
        flows := flows[tag := jf.(arrivals := Inc(jf.arrivals))];
      } else {
        var jf := ZeroFlow;
        jf := jf.(arrivals := 1);
        flows := flows[tag := jf];
      }
    }

    /**
      Records a completion; the time stamp is not used. `matched` is false
      when tag has no counter, the case the Go code only logs.
     */
    method Completion(tag: ResourceTag, timeStamp: uint64) returns (matched: bool)
      modifies this
      ensures matched <==> tag in old(flows)
      ensures flows == AfterCompletion(old(flows), tag)
    {
      matched := tag in flows;
      if matched {
        var jf := flows[tag];
        flows := flows[tag := jf.(completions := Inc(jf.completions))];
      }
    }
  }

  /** One call into the registry. */
  datatype Event = Arrive(tag: ResourceTag) | Complete(tag: ResourceTag)

  function Apply(m: FlowMap, e: Event): FlowMap {
    match e
    case Arrive(t) => AfterArrival(m, t)
    case Complete(t) => AfterCompletion(m, t)
  }

  /** The map after a sequence of events, first event first. */
  function Replay(m: FlowMap, es: seq<Event>): FlowMap
    decreases |es|
  {
    if es == [] then m else Replay(Apply(m, es[0]), es[1..])
  }

  /** The tags that arrive somewhere in es. */
  function ArrivedTags(es: seq<Event>): set<ResourceTag>
    decreases |es|
  {
    if es == [] then {}
    else (if es[0].Arrive? then {es[0].tag} else {}) + ArrivedTags(es[1..])
  }

  function CountArrivals(es: seq<Event>, tag: ResourceTag): nat
    decreases |es|
  {
    if es == [] then 0
    else (if es[0] == Arrive(tag) then 1 else 0) + CountArrivals(es[1..], tag)
  }

  function CountCompletions(es: seq<Event>, tag: ResourceTag): nat
    decreases |es|
  {
    if es == [] then 0
    else (if es[0] == Complete(tag) then 1 else 0) + CountCompletions(es[1..], tag)
  }

  /** Completions of tag that come after its first arrival; earlier ones find no counter. */
  function CompletionsAfterFirstArrival(es: seq<Event>, tag: ResourceTag): nat
    decreases |es|
  {
    if es == [] then 0
    else if es[0] == Arrive(tag) then CountCompletions(es[1..], tag)
    else CompletionsAfterFirstArrival(es[1..], tag)
  }

  /**
    Entries are never removed: after any events the registry holds exactly
    the tags it held before and the tags that arrived.
   */
  lemma {:induction false} ReplayKeys(m: FlowMap, es: seq<Event>)
    ensures Replay(m, es).Keys == m.Keys + ArrivedTags(es)
    decreases |es|
  {
    if es != [] {
      ReplayKeys(Apply(m, es[0]), es[1..]);
    }
  }

  /** Nothing writes `busy`: an entry's `busy` never changes, and new entries start at 0. */
  lemma {:induction false} ReplayBusy(m: FlowMap, es: seq<Event>, tag: ResourceTag)
    requires tag in Replay(m, es)
    ensures Replay(m, es)[tag].busy == if tag in m then m[tag].busy else 0
    decreases |es|
  {
    if es != [] {
      var m' := Apply(m, es[0]);
      ReplayBusy(m', es[1..], tag);
    }
  }

  /**
    A counter that exists counts every later event for its tag (modulo
    2^64, as Go's `uint64` does) and nothing else.
   */
  lemma {:induction false} ReplayExisting(m: FlowMap, es: seq<Event>, tag: ResourceTag)
    requires tag in m
    ensures tag in Replay(m, es)
    ensures Replay(m, es)[tag]
         == JobFlow((m[tag].arrivals + CountArrivals(es, tag)) % TWO_64,
                    m[tag].busy,
                    (m[tag].completions + CountCompletions(es, tag)) % TWO_64)
    decreases |es|
  {
    if es == [] {
    } else {
      var m' := Apply(m, es[0]);
      ReplayExisting(m', es[1..], tag);
      IncMod(m[tag].arrivals);
      IncMod(m[tag].completions);
      var f := m[tag];
      var a, c := CountArrivals(es[1..], tag), CountCompletions(es[1..], tag);
      if es[0] == Arrive(tag) {
        assert m'[tag] == f.(arrivals := (f.arrivals + 1) % TWO_64);
        ModAddMod(f.arrivals + 1, a);
      } else if es[0] == Complete(tag) {
        assert m'[tag] == f.(completions := (f.completions + 1) % TWO_64);
        ModAddMod(f.completions + 1, c);
      } else {
        assert m'[tag] == f;
      }
    }
  }

  lemma ModAddMod(x: nat, y: nat)
    ensures (x % TWO_64 + y) % TWO_64 == (x + y) % TWO_64
  {
  }

  /**
    A tag the registry has not seen gets a counter exactly when it
    arrives; the counter then holds all its arrivals, no busy count, and
    the completions that followed its first arrival.
   */
  lemma {:induction false} ReplayFresh(m: FlowMap, es: seq<Event>, tag: ResourceTag)
    requires tag !in m
    ensures tag in Replay(m, es) <==> Arrive(tag) in es
    ensures tag in Replay(m, es) ==>
              Replay(m, es)[tag]
              == JobFlow(CountArrivals(es, tag) % TWO_64, 0, CompletionsAfterFirstArrival(es, tag) % TWO_64)
    decreases |es|
  {
    if es != [] {
      var m' := Apply(m, es[0]);
      assert es == [es[0]] + es[1..];
      if es[0] == Arrive(tag) {
        assert m'[tag] == JobFlow(1, 0, 0);
        ReplayExisting(m', es[1..], tag);
      } else {
        assert tag !in m';
        ReplayFresh(m', es[1..], tag);
      }
    }
  }

  /** n copies of e. */
  function Repeat(e: Event, n: nat): (es: seq<Event>)
    ensures |es| == n && forall i :: 0 <= i < n ==> es[i] == e
  {
    if n == 0 then [] else [e] + Repeat(e, n - 1)
  }

  lemma {:induction false} CountRepeat(e: Event, n: nat, tag: ResourceTag)
    ensures CountArrivals(Repeat(e, n), tag) == if e == Arrive(tag) then n else 0
    ensures CountCompletions(Repeat(e, n), tag) == if e == Complete(tag) then n else 0
  {
    if n > 0 {
      CountRepeat(e, n - 1, tag);
    }
  }

  lemma {:induction false} CountConcat(a: seq<Event>, b: seq<Event>, tag: ResourceTag)
    ensures CountArrivals(a + b, tag) == CountArrivals(a, tag) + CountArrivals(b, tag)
    ensures CountCompletions(a + b, tag) == CountCompletions(a, tag) + CountCompletions(b, tag)
    decreases |a|
  {
    if a == [] {
      assert a + b == b;
    } else {
      assert (a + b)[1..] == a[1..] + b;
      CountConcat(a[1..], b, tag);
    }
  }

  /**
    On a fresh registry, n arrivals then k completions for one tag leave a
    counter {n, 0, k} (n >= 1); with no arrival, the completions find no
    counter and none is created.
   */
  lemma ArrivalsThenCompletions(tag: ResourceTag, n: nat, k: nat)
    ensures var r := Replay(map[], Repeat(Arrive(tag), n) + Repeat(Complete(tag), k));
            && (tag in r <==> n > 0)
            && (n > 0 ==> r[tag] == JobFlow(n % TWO_64, 0, k % TWO_64))
  {
    var es := Repeat(Arrive(tag), n) + Repeat(Complete(tag), k);
    ReplayFresh(map[], es, tag);
    if n > 0 {
      assert es[0] == Arrive(tag);
      assert es[1..] == Repeat(Arrive(tag), n - 1) + Repeat(Complete(tag), k);
      CountConcat(Repeat(Arrive(tag), n), Repeat(Complete(tag), k), tag);
      CountConcat(Repeat(Arrive(tag), n - 1), Repeat(Complete(tag), k), tag);
      CountRepeat(Arrive(tag), n, tag);
      CountRepeat(Arrive(tag), n - 1, tag);
      CountRepeat(Complete(tag), k, tag);
    } else {
      assert es == Repeat(Complete(tag), k);
      assert Arrive(tag) !in es;
    }
  }

  /**
    The counter after n > 0 arrivals and k completions is flow-balanced
    exactly when n and k agree modulo 2^64, the width of Go's `uint64`;
    for counts below 2^64, exactly when n == k.
   */
  lemma ArrivalsThenCompletionsBalance(tag: ResourceTag, n: nat, k: nat)
    requires 0 < n
    ensures var r := Replay(map[], Repeat(Arrive(tag), n) + Repeat(Complete(tag), k));
            && tag in r
            && (r[tag].HasJobFlowBalance() <==> n % TWO_64 == k % TWO_64)
            && (n < TWO_64 && k < TWO_64 ==> (r[tag].HasJobFlowBalance() <==> n == k))
  {
    ArrivalsThenCompletions(tag, n, k);
  }

  /**
    The scenario of the registry's String test: 11 arrivals and 10
    completions for tag 1234 on a new registry, then the counter read back.
   */
  method StringerScenario() returns (flow: Option<JobFlow>, text: string, balanced: bool)
    ensures flow == Some(JobFlow(11, 0, 10))
    ensures text == "[11,0,10]"
    ensures !balanced
  {
    var resourceTag: ResourceTag := 1234;
    var perfmon := new PerfMonitor();
    var i: uint64 := 0;
    while i < 11
      invariant 0 <= i <= 11
      invariant perfmon.flows == if i == 0 then map[] else map[resourceTag := JobFlow(i, 0, 0)]
    {
      perfmon.Arrival(resourceTag, i);
      i := i + 1;
    }
    i := 0;
    while i < 10
      invariant 0 <= i <= 10
      invariant perfmon.flows == map[resourceTag := JobFlow(11, 0, i)]
    {
      var _ := perfmon.Completion(resourceTag, i + 5);
      i := i + 1;
    }
    flow := Some(perfmon.flows[resourceTag]);
    text := flow.value.String();
    balanced := flow.value.HasJobFlowBalance();
    StringExample();
  }
}
