/** Event generators over loop data and number ranges, and the driver loop of RunParallel. */
module Generators {
  import opened Wrappers
  import opened Decimal

  type EnvVars = map<string, string>

  // What distinguishes one generated event from the next.
  datatype Event = Event(identifier: string, loopNum: nat, envVars: Option<EnvVars>)

  // -------- per-event loop data --------

  class PerEventLooper {
    const data: seq<EnvVars>
    var position: nat

    constructor (data: seq<EnvVars>)
      requires data != []
      ensures Valid() && this.data == data && position == 0
    {
      this.data := data;
      position := 0;
    }

    ghost predicate Valid()
      reads this
    {
      position < |data|
    }

    // Hands out the entries in turn, and says when a round is complete.
    method Next() returns (envVars: EnvVars, incrementEvent: bool, pos: nat)
      requires Valid()
      modifies this
      ensures Valid()
      ensures pos == old(position) && envVars == data[pos]
      ensures incrementEvent <==> pos == |data| - 1
      ensures position == if incrementEvent then 0 else pos + 1
    {
      pos := position;
      envVars := data[pos];
      if position < |data| - 1 {
        position := position + 1;
        incrementEvent := false;
      } else {
        position := 0;
        incrementEvent := true;
      }
    }
  }

  // max(1, L) for L loop entries.
  function Rounds(data: seq<EnvVars>): nat {
    if data == [] then 1 else |data|
  }

  function EnvAt(data: seq<EnvVars>, loop: nat): Option<EnvVars>
    requires loop < Rounds(data)
  {
    if data == [] then None else Some(data[loop])
  }

  // -------- the array source --------

  // The k-th event, in closed form.
  function ArrayEvent(start: int, data: seq<EnvVars>, k: nat): Event {
    var m := Rounds(data);
    Event(Itoa(start + k / m), k % m, EnvAt(data, k % m))
  }

  // Dispatch k, on the number and the entry it carries.
  ghost predicate Due(start: int, data: seq<EnvVars>, k: nat, event: Event) {
    && event.identifier == Itoa(start + if data == [] then k else k / |data|)
    && event.loopNum == (if data == [] then 0 else k % |data|)
    && event.envVars == if data == [] then None else Some(data[k % |data|])
  }

  ghost predicate AllDue(start: int, data: seq<EnvVars>, events: seq<Event>) {
    forall k | 0 <= k < |events| :: Due(start, data, k, events[k])
  }

  function Max(a: int, b: int): int {
    if a < b then b else a
  }

  function ArrayCount(start: int, end: int, data: seq<EnvVars>): int {
    Max(1, end - start + 1) * Rounds(data)
  }

  lemma MultipleIsFar(d: int, m: nat)
    requires m > 0
    ensures d >= 1 ==> d * m >= m
    ensures d <= -1 ==> d * m + m <= 0
  {
  }

  lemma DivModUnique(k: nat, m: nat, q: nat, r: nat)
    requires m > 0 && k == q * m + r && r < m
    ensures k / m == q && k % m == r
  {
    var d := k / m - q;
    assert k == (k / m) * m + k % m;
    assert d * m == r - k % m;
    MultipleIsFar(d, m);
  }

  class ArrayEventGenerator {
    ghost const start: int
    const end: int
    ghost const data: seq<EnvVars>
    var position: int
    const pel: PerEventLooper?

    constructor (start: int, end: int, data: seq<EnvVars>)
      ensures Valid() && fresh(Repr()) && this.start == start && this.end == end && this.data == data
      ensures Numbers() == 0 && Loop() == 0
    {
      this.start, this.end, this.data, this.position := start, end, data, start;
      if data == [] {
        pel := null;
      } else {
        pel := new PerEventLooper(data);
      }
    }

    ghost function Repr(): set<object> {
      {this} + if pel == null then {} else {pel}
    }

    ghost predicate Valid()
      reads this, pel
    {
      && start <= position
      && (pel == null <==> data == [])
      && (pel != null ==> pel.Valid() && pel.data == data)
    }

    // How many numbers are behind, and how many entries of the current round.
    ghost function Numbers(): nat
      reads this, pel
      requires Valid()
    {
      position - start
    }

    ghost function Loop(): nat
      reads this, pel
      requires Valid()
    {
      if pel == null then 0 else pel.position
    }

    method NextEvent() returns (event: Event, hasNext: bool)
      requires Valid()
      modifies Repr()
      ensures Valid()
      ensures old(Loop()) < if data == [] then 1 else |data|
      ensures event.identifier == Itoa(start + old(Numbers())) && event.loopNum == old(Loop())
      ensures event.envVars == if data == [] then None else Some(data[old(Loop())])
      ensures var last := data == [] || old(Loop()) == |data| - 1;
              && Loop() == (if last then 0 else old(Loop()) + 1)
              && Numbers() == (if last then old(Numbers()) + 1 else old(Numbers()))
              && (hasNext <==> !last || start + old(Numbers()) < end)
    {
      var envVars: Option<EnvVars> := None;
      var incrementEvent, pos := true, 0;
      if pel != null {
        var vars;
        vars, incrementEvent, pos := pel.Next();
        envVars := Some(vars);
      }
      event := Event(Itoa(position), pos, envVars);
      hasNext := true;
      if incrementEvent {
        hasNext := position < end;
        position := position + 1;
      }
    }
  }

  // How many calls are behind after q whole rounds of m calls and r more.
  function CallsMade(q: nat, m: nat, r: nat): nat
    decreases q
  {
    if q == 0 then r else m + CallsMade(q - 1, m, r)
  }

  lemma {:induction false} CallsAreCounted(q: nat, m: nat, r: nat)
    ensures CallsMade(q, m, r) == q * m + r
  {
    if q == 0 {
    } else {
      CallsAreCounted(q - 1, m, r);
      assert (q - 1) * m == q * m - m;
    }
  }

  // The call after the last one of a round begins the next round, or is one too many.
  lemma NextCall(start: int, end: int, data: seq<EnvVars>, q: nat, r: nat)
    requires r < Rounds(data)
    ensures CallsMade(q, Rounds(data), r + 1) == CallsMade(q, Rounds(data), r) + 1
    ensures r == Rounds(data) - 1 ==> CallsMade(q + 1, Rounds(data), 0) == CallsMade(q, Rounds(data), r) + 1
    ensures CallsMade(Max(0, end - start) + 1, Rounds(data), 0) == ArrayCount(start, end, data)
  {
    var m := Rounds(data);
    CallsAreCounted(q, m, r);
    CallsAreCounted(q, m, r + 1);
    CallsAreCounted(q + 1, m, 0);
    CallsAreCounted(Max(0, end - start) + 1, m, 0);
    assert (q + 1) * m == q * m + m;
  }

  lemma NextIsDue(start: int, data: seq<EnvVars>, events: seq<Event>, q: nat, r: nat, event: Event)
    requires AllDue(start, data, events) && r < Rounds(data) && |events| == CallsMade(q, Rounds(data), r)
    requires event.identifier == Itoa(start + q) && event.loopNum == r
    requires event.envVars == if data == [] then None else Some(data[r])
    ensures AllDue(start, data, events + [event])
  {
    CallsAreCounted(q, Rounds(data), r);
    DivModUnique(|events|, Rounds(data), q, r);
  }

  lemma EachIsDue(start: int, data: seq<EnvVars>, events: seq<Event>)
    requires AllDue(start, data, events)
    ensures forall k | 0 <= k < |events| :: events[k] == ArrayEvent(start, data, k)
  {
    forall k | 0 <= k < |events|
      ensures events[k] == ArrayEvent(start, data, k)
    {
      assert Due(start, data, k, events[k]);
    }
  }

  /**
   The driver loop over an array source: it ends, and dispatches every number of the
   range in turn, or the first alone if the range is empty, once for each entry of
   the loop data and with that entry.
   */
  method RunArray(start: int, end: int, data: seq<EnvVars>) returns (dispatched: seq<Event>)
    ensures |dispatched| == (if end < start then 1 else end - start + 1) * (if data == [] then 1 else |data|)
    ensures forall k | 0 <= k < |dispatched| ::
              && dispatched[k].identifier == Itoa(start + if data == [] then k else k / |data|)
              && dispatched[k].loopNum == (if data == [] then 0 else k % |data|)
              && dispatched[k].envVars == if data == [] then None else Some(data[k % |data|])
    ensures forall k | 0 <= k < |dispatched| :: dispatched[k] == ArrayEvent(start, data, k)
  {
    var generator := new ArrayEventGenerator(start, end, data);
    var hasNext := true;
    dispatched := [];
    ghost var last := Max(0, end - start);
    while hasNext
      invariant generator.Valid() && fresh(generator.Repr())
      invariant generator.start == start && generator.end == end && generator.data == data
      invariant hasNext ==> generator.Loop() < Rounds(data) && generator.Numbers() <= last
      invariant hasNext ==> |dispatched| == CallsMade(generator.Numbers(), Rounds(data), generator.Loop())
      invariant !hasNext ==> |dispatched| == ArrayCount(start, end, data)
      invariant AllDue(start, data, dispatched)
      decreases hasNext, last - generator.Numbers(), Rounds(data) - generator.Loop()
    {
      ghost var q, r := generator.Numbers(), generator.Loop();
      NextCall(start, end, data, q, r);
      var event;
      event, hasNext := generator.NextEvent();
      NextIsDue(start, data, dispatched, q, r, event);
      dispatched := dispatched + [event];
    }
    EachIsDue(start, data, dispatched);
  }
}
