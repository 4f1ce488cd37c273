/** The streaming event source under the driver loop of RunParallel. */
module Streaming {
  import opened Generators
  import opened Wrappers
  import SplitAt

  // -------- strings.TrimSpace --------

  // The characters with Unicode's White_Space property.
  predicate IsSpace(c: char) {
    var n := c as int;
    || 9 <= n <= 13 || n == 0x20 || n == 0x85 || n == 0xA0 || n == 0x1680 || 0x2000 <= n <= 0x200A
    || n == 0x2028 || n == 0x2029 || n == 0x202F || n == 0x205F || n == 0x3000
  }

  function TrimLeft(s: string): string {
    if s != "" && IsSpace(s[0]) then TrimLeft(s[1..]) else s
  }

  function TrimRight(s: string): string {
    if s != "" && IsSpace(s[|s| - 1]) then TrimRight(s[..|s| - 1]) else s
  }

  function Trim(s: string): string {
    TrimRight(TrimLeft(s))
  }

  predicate Blank(s: string) {
    forall c | c in s :: IsSpace(c)
  }

  lemma {:induction false} TrimRightCuts(s: string) returns (after: string)
    ensures s == TrimRight(s) + after && Blank(after)
    ensures var r := TrimRight(s); r != "" ==> !IsSpace(r[|r| - 1]) && r[0] == s[0]
  {
    if s != "" && IsSpace(s[|s| - 1]) {
      var rest := TrimRightCuts(s[..|s| - 1]);
      after := rest + [s[|s| - 1]];
    } else {
      after := "";
    }
  }

  lemma {:induction false} TrimLeftCuts(s: string) returns (before: string)
    ensures s == before + TrimLeft(s) && Blank(before)
    ensures var r := TrimLeft(s); r != "" ==> !IsSpace(r[0])
  {
    if s != "" && IsSpace(s[0]) {
      var rest := TrimLeftCuts(s[1..]);
      before := [s[0]] + rest;
    } else {
      before := "";
    }
  }

  /**
   Trimming removes white space from both ends, and stops at the first other character.
   */
  lemma TrimIsCore(s: string) returns (before: string, after: string)
    ensures s == before + Trim(s) + after && Blank(before) && Blank(after)
    ensures var r := Trim(s); r != "" ==> !IsSpace(r[0]) && !IsSpace(r[|r| - 1])
  {
    before := TrimLeftCuts(s);
    after := TrimRightCuts(TrimLeft(s));
    assert s == before + (Trim(s) + after);
  }

  // -------- the generator --------

  // scanned tokens have been read; eventId is the trimmed text of the last one,
  // and empty once the scanner has none left.
  datatype Source = Source(scanned: nat, hasNext: bool, eventId: string, loop: nat)

  function Scan(tokens: seq<string>, scanned: nat, loop: nat): Source {
    if scanned < |tokens| then Source(scanned + 1, true, Trim(tokens[scanned]), loop)
    else Source(scanned, false, "", loop)
  }

  // One call of NextEvent: the event, or None for the error; hasNext is the
  // second result.
  datatype Outcome = Outcome(event: Option<Event>, source: Source) {
    predicate HasNext() {
      source.hasNext
    }
  }

  function NextOutcome(tokens: seq<string>, data: seq<EnvVars>, s: Source): Outcome
    requires s.loop < Rounds(data)
  {
    if s.eventId == "" then Outcome(None, Scan(tokens, s.scanned, s.loop))
    else
      var event := Event(s.eventId, s.loop, EnvAt(data, s.loop));
      if s.loop == Rounds(data) - 1 then Outcome(Some(event), Scan(tokens, s.scanned, 0))
      else Outcome(Some(event), s.(loop := s.loop + 1))
  }

  class StreamingEventGenerator {
    ghost const tokens: seq<string>
    ghost const data: seq<EnvVars>
    var rest: seq<string>  // what the scanner will still deliver
    var hasNext: bool
    var eventId: string
    var index: nat
    const pel: PerEventLooper?

    ghost function Repr(): set<object> {
      {this} + if pel == null then {} else {pel}
    }

    ghost predicate Valid()
      reads this, pel
    {
      && |rest| <= |tokens| && rest == tokens[|tokens| - |rest|..]
      && (pel == null <==> data == [])
      && (pel != null ==> pel.Valid() && pel.data == data)
    }

    ghost function State(): Source
      reads this, pel
      requires Valid()
    {
      Source(|tokens| - |rest|, hasNext, eventId, Loop())
    }

    // How many entries of the current round are behind.
    ghost function Loop(): nat
      reads this, pel
    {
      if pel == null then 0 else pel.position
    }

    constructor (tokens: seq<string>, data: seq<EnvVars>)
      ensures Valid() && fresh(Repr()) && this.tokens == tokens && this.data == data
      ensures State() == Scan(tokens, 0, 0)
    {
      this.tokens, this.data, this.rest := tokens, data, tokens;
      this.hasNext, this.eventId, this.index := false, "", 0;
      if data == [] {
        pel := null;
      } else {
        pel := new PerEventLooper(data);
      }
      new;
      ReadToken();
    }

    // The first of the tokens still to come was read, if there was one.
    ghost predicate IsRead(before: seq<string>)
      reads this
    {
      if before == [] then !hasNext && eventId == "" && rest == []
      else hasNext && eventId == Trim(before[0]) && rest == before[1..]
    }

    // scanner.Scan() and the trimmed scanner.Text(), empty after the last token.
    method ReadToken()
      requires Valid()
      modifies this
      ensures Valid() && index == old(index)
      ensures IsRead(old(rest))
      ensures State() == Scan(tokens, old(State()).scanned, old(State()).loop)
    {
      if rest == [] {
        hasNext, eventId := false, "";
      } else {
        hasNext, eventId, rest := true, Trim(rest[0]), rest[1..];
      }
    }

    method ScanNext()
      requires Valid()
      modifies this
      ensures Valid() && index == old(index) + 1
      ensures IsRead(old(rest))
      ensures State() == Scan(tokens, old(State()).scanned, old(State()).loop)
    {
      ReadToken();
      index := index + 1;
    }

    method NextEvent() returns (event: Option<Event>, more: bool)
      requires Valid()
      modifies Repr()
      ensures Valid() && old(Loop()) < if data == [] then 1 else |data|
      ensures event == None <==> old(eventId) == ""
      ensures event.Some? ==> event.value.identifier == old(eventId) && event.value.loopNum == old(Loop())
      ensures event.Some? ==> event.value.envVars == if data == [] then None else Some(data[old(Loop())])
      ensures var last := data == [] || old(Loop()) == |data| - 1;
              && (event.None? || last ==> IsRead(old(rest)) && index == old(index) + 1)
              && (event.Some? && !last ==> hasNext == old(hasNext) && eventId == old(eventId) && rest == old(rest))
              && Loop() == if event.None? then old(Loop()) else if last then 0 else old(Loop()) + 1
      ensures more == hasNext
      ensures Outcome(event, State()) == NextOutcome(tokens, data, old(State()))
    {
      if eventId == "" {
        ScanNext();
        return None, hasNext;
      }
      var envVars: Option<EnvVars> := None;
      var incrementEvent, pos := true, 0;
      if pel != null {
        var vars;
        vars, incrementEvent, pos := pel.Next();
        envVars := Some(vars);
      }
      event := Some(Event(eventId, pos, envVars));
      if incrementEvent {
        ScanNext();
      }
      more := hasNext;
    }
  }

  // -------- the driver loop, iteration by iteration --------

  datatype Drive = Drive(source: Source, dispatched: seq<Event>, stopped: bool)

  // An error is logged and skipped; the loop ends after a dispatch without successor.
  function Iterate(tokens: seq<string>, data: seq<EnvVars>, d: Drive): Drive
    requires d.source.loop < Rounds(data)
  {
    if d.stopped then d
    else
      var outcome := NextOutcome(tokens, data, d.source);
      match outcome.event
      case None => Drive(outcome.source, d.dispatched, false)
      case Some(event) => Drive(outcome.source, d.dispatched + [event], !outcome.HasNext())
  }

  function After(tokens: seq<string>, data: seq<EnvVars>, n: nat): (d: Drive)
    ensures d.source.loop < Rounds(data)
  {
    if n == 0 then Drive(Scan(tokens, 0, 0), [], false)
    else Iterate(tokens, data, After(tokens, data, n - 1))
  }

  // -------- what should be dispatched --------

  // The first `count` events of one identifier.
  function LoopEvents(id: string, data: seq<EnvVars>, count: nat): (events: seq<Event>)
    requires count <= Rounds(data)
    ensures |events| == count
    ensures forall l | 0 <= l < count :: events[l] == Event(id, l, EnvAt(data, l))
  {
    seq(count, l requires 0 <= l < count => Event(id, l, EnvAt(data, l)))
  }

  // Every token that is not blank, once per loop entry.
  function TokenEvents(tokens: seq<string>, data: seq<EnvVars>): seq<Event> {
    if tokens == [] then []
    else
      var id := Trim(tokens[|tokens| - 1]);
      TokenEvents(tokens[..|tokens| - 1], data) + if id == "" then [] else LoopEvents(id, data, Rounds(data))
  }

  // The places of the tokens that are not blank.
  function NotBlank(tokens: seq<string>): (places: seq<nat>)
    ensures forall i | 0 <= i < |places| :: places[i] < |tokens| && Trim(tokens[places[i]]) != ""
    ensures forall i, j | 0 <= i < j < |places| :: places[i] < places[j]
    ensures forall n | 0 <= n < |tokens| && Trim(tokens[n]) != "" :: n in places
  {
    if tokens == [] then []
    else
      var n := |tokens| - 1;
      NotBlank(tokens[..n]) + if Trim(tokens[n]) == "" then [] else [n]
  }

  // Event k of a stream whose tokens that are not blank stand at the given places.
  ghost predicate DueAt(tokens: seq<string>, data: seq<EnvVars>, places: seq<nat>, k: nat, event: Event) {
    var place := if data == [] then k else k / |data|;
    && place < |places| && places[place] < |tokens|
    && event.identifier == Trim(tokens[places[place]])
    && event.loopNum == (if data == [] then 0 else k % |data|)
    && event.envVars == if data == [] then None else Some(data[k % |data|])
  }

  // One event for each of those places and each entry, and no others.
  ghost predicate AllDueAt(tokens: seq<string>, data: seq<EnvVars>, places: seq<nat>, events: seq<Event>) {
    && |events| == |places| * Rounds(data)
    && forall k | 0 <= k < |events| :: DueAt(tokens, data, places, k, events[k])
  }

  lemma DueBefore(tokens: seq<string>, data: seq<EnvVars>, places: seq<nat>, n: nat, k: nat, event: Event)
    requires n < |tokens| && DueAt(tokens[..n], data, places, k, event)
    ensures DueAt(tokens, data, places + [n], k, event) && DueAt(tokens, data, places, k, event)
  {
  }

  lemma DueLast(tokens: seq<string>, data: seq<EnvVars>, places: seq<nat>, n: nat, l: nat)
    requires n < |tokens| && l < Rounds(data)
    ensures DueAt(tokens, data, places + [n], |places| * Rounds(data) + l,
                  LoopEvents(Trim(tokens[n]), data, Rounds(data))[l])
  {
    DivModUnique(|places| * Rounds(data) + l, Rounds(data), |places|, l);
  }

  lemma BlankAdds(tokens: seq<string>, data: seq<EnvVars>, places: seq<nat>, n: nat, events: seq<Event>)
    requires n < |tokens| && AllDueAt(tokens[..n], data, places, events)
    ensures AllDueAt(tokens, data, places, events)
  {
    forall k | 0 <= k < |events|
      ensures DueAt(tokens, data, places, k, events[k])
    {
      DueBefore(tokens, data, places, n, k, events[k]);
    }
  }

  lemma TokenAdds(tokens: seq<string>, data: seq<EnvVars>, places: seq<nat>, n: nat, events: seq<Event>)
    requires n < |tokens| && AllDueAt(tokens[..n], data, places, events)
    ensures AllDueAt(tokens, data, places + [n], events + LoopEvents(Trim(tokens[n]), data, Rounds(data)))
  {
    var all := events + LoopEvents(Trim(tokens[n]), data, Rounds(data));
    assert (|places| + 1) * Rounds(data) == |places| * Rounds(data) + Rounds(data);
    forall k | 0 <= k < |all|
      ensures DueAt(tokens, data, places + [n], k, all[k])
    {
      if k < |events| {
        DueBefore(tokens, data, places, n, k, events[k]);
      } else {
        DueLast(tokens, data, places, n, k - |events|);
      }
    }
  }

  /**
   Token by token and entry by entry: where each dispatched event comes from.
   */
  lemma {:induction false} TokenEventsAt(tokens: seq<string>, data: seq<EnvVars>)
    ensures AllDueAt(tokens, data, NotBlank(tokens), TokenEvents(tokens, data))
  {
    if tokens == [] {
    } else {
      var n := |tokens| - 1;
      TokenEventsAt(tokens[..n], data);
      if Trim(tokens[n]) == "" {
        BlankAdds(tokens, data, NotBlank(tokens[..n]), n, TokenEvents(tokens[..n], data));
      } else {
        TokenAdds(tokens, data, NotBlank(tokens[..n]), n, TokenEvents(tokens[..n], data));
      }
    }
  }

  predicate EndsWell(tokens: seq<string>) {
    tokens != [] && Trim(tokens[|tokens| - 1]) != ""
  }

  // Between iterations: the tokens behind the current one are done, the current
  // one up to its loop position.
  ghost predicate OnCourse(tokens: seq<string>, data: seq<EnvVars>, d: Drive) {
    var s := d.source;
    && s.scanned <= |tokens| && s.loop < Rounds(data)
    && if s.hasNext then
         && 0 < s.scanned && s.eventId == Trim(tokens[s.scanned - 1]) && !d.stopped
         && (s.eventId == "" ==> s.loop == 0)
         && d.dispatched == TokenEvents(tokens[..s.scanned - 1], data) + LoopEvents(s.eventId, data, s.loop)
       else
         && s.scanned == |tokens| && s.eventId == "" && s.loop == 0
         && d.dispatched == TokenEvents(tokens, data)
         && d.stopped == EndsWell(tokens)
  }

  lemma ScanOnCourse(tokens: seq<string>, data: seq<EnvVars>, scanned: nat, dispatched: seq<Event>, stopped: bool)
    requires scanned <= |tokens| && dispatched == TokenEvents(tokens[..scanned], data)
    requires if scanned < |tokens| then !stopped else stopped == EndsWell(tokens)
    ensures OnCourse(tokens, data, Drive(Scan(tokens, scanned, 0), dispatched, stopped))
  {
    if scanned == |tokens| {
      assert tokens[..scanned] == tokens;
    } else {
      assert dispatched + LoopEvents(Trim(tokens[scanned]), data, 0) == dispatched;
    }
  }

  // The tokens up to the current one, split at it.
  lemma TokenDone(tokens: seq<string>, data: seq<EnvVars>, scanned: nat)
    requires 0 < scanned <= |tokens|
    ensures TokenEvents(tokens[..scanned], data)
         == TokenEvents(tokens[..scanned - 1], data)
            + if Trim(tokens[scanned - 1]) == "" then [] else LoopEvents(Trim(tokens[scanned - 1]), data, Rounds(data))
  {
    assert tokens[..scanned][..scanned - 1] == tokens[..scanned - 1];
  }

  lemma OneMoreLoop(done: seq<Event>, id: string, data: seq<EnvVars>, loop: nat)
    requires loop < Rounds(data)
    ensures done + LoopEvents(id, data, loop) + [Event(id, loop, EnvAt(data, loop))]
         == done + LoopEvents(id, data, loop + 1)
  {
  }

  lemma BlankOnCourse(tokens: seq<string>, data: seq<EnvVars>, d: Drive)
    requires OnCourse(tokens, data, d) && d.source.eventId == "" && !d.stopped
    ensures OnCourse(tokens, data, Iterate(tokens, data, d))
  {
    var s := d.source;
    if s.hasNext {
      TokenDone(tokens, data, s.scanned);
      assert d.dispatched == TokenEvents(tokens[..s.scanned], data);
      ScanOnCourse(tokens, data, s.scanned, d.dispatched, false);
    }
  }

  lemma LoopContinuesOnCourse(tokens: seq<string>, data: seq<EnvVars>, d: Drive)
    requires OnCourse(tokens, data, d) && d.source.eventId != "" && d.source.loop + 1 < Rounds(data)
    ensures OnCourse(tokens, data, Iterate(tokens, data, d))
  {
    OneMoreLoop(TokenEvents(tokens[..d.source.scanned - 1], data), d.source.eventId, data, d.source.loop);
  }

  // The last entry completes what is due for the current token.
  lemma LastDispatch(tokens: seq<string>, data: seq<EnvVars>, scanned: nat, dispatched: seq<Event>)
    requires 0 < scanned <= |tokens| && Trim(tokens[scanned - 1]) != ""
    requires var id, last := Trim(tokens[scanned - 1]), Rounds(data) - 1;
             dispatched == TokenEvents(tokens[..scanned - 1], data) + LoopEvents(id, data, last)
    ensures var id, last := Trim(tokens[scanned - 1]), Rounds(data) - 1;
            dispatched + [Event(id, last, EnvAt(data, last))] == TokenEvents(tokens[..scanned], data)
  {
    var last := Rounds(data) - 1;
    OneMoreLoop(TokenEvents(tokens[..scanned - 1], data), Trim(tokens[scanned - 1]), data, last);
    TokenDone(tokens, data, scanned);
  }

  lemma LastLoop(tokens: seq<string>, data: seq<EnvVars>, d: Drive)
    requires d.source.loop + 1 == Rounds(data) && d.source.eventId != "" && !d.stopped
    requires d.source.scanned <= |tokens|
    ensures var s := d.source;
            Iterate(tokens, data, d) == Drive(Scan(tokens, s.scanned, 0),
                                              d.dispatched + [Event(s.eventId, s.loop, EnvAt(data, s.loop))],
                                              s.scanned == |tokens|)
  {
  }

  lemma LoopCompletesOnCourse(tokens: seq<string>, data: seq<EnvVars>, d: Drive)
    requires OnCourse(tokens, data, d) && d.source.eventId != "" && d.source.loop + 1 == Rounds(data)
    ensures OnCourse(tokens, data, Iterate(tokens, data, d))
  {
    var s := d.source;
    var dispatched := d.dispatched + [Event(s.eventId, s.loop, EnvAt(data, s.loop))];
    LastLoop(tokens, data, d);
    LastDispatch(tokens, data, s.scanned, d.dispatched);
    ScanOnCourse(tokens, data, s.scanned, dispatched, s.scanned == |tokens|);
  }

  lemma {:induction false} AfterOnCourse(tokens: seq<string>, data: seq<EnvVars>, n: nat)
    ensures OnCourse(tokens, data, After(tokens, data, n))
  {
    if n == 0 {
      ScanOnCourse(tokens, data, 0, [], false);
    } else {
      AfterOnCourse(tokens, data, n - 1);
      var d := After(tokens, data, n - 1);
      if !d.stopped {
        if d.source.eventId == "" {
          BlankOnCourse(tokens, data, d);
        } else if d.source.loop + 1 < Rounds(data) {
          LoopContinuesOnCourse(tokens, data, d);
        } else {
          LoopCompletesOnCourse(tokens, data, d);
        }
      }
    }
  }

  // -------- the two fates of the loop --------

  // Tokens not yet finished with, the current one included.
  function TokensLeft(tokens: seq<string>, s: Source): int {
    if s.hasNext then |tokens| - s.scanned + 1 else 0
  }

  // Each iteration finishes a token or advances in the loop data.
  lemma IterationProgresses(tokens: seq<string>, data: seq<EnvVars>, n: nat)
    requires After(tokens, data, n).source.hasNext
    ensures var s, t := After(tokens, data, n).source, After(tokens, data, n + 1).source;
            && TokensLeft(tokens, s) > 0
            && (TokensLeft(tokens, t) < TokensLeft(tokens, s) || (t == s.(loop := s.loop + 1)))
  {
    AfterOnCourse(tokens, data, n);
  }

  lemma {:induction false} SourceRunsDry(tokens: seq<string>, data: seq<EnvVars>, n: nat) returns (last: nat)
    ensures last >= n && !After(tokens, data, last).source.hasNext
    decreases TokensLeft(tokens, After(tokens, data, n).source), Rounds(data) - After(tokens, data, n).source.loop
  {
    if !After(tokens, data, n).source.hasNext {
      return n;
    }
    IterationProgresses(tokens, data, n);
    last := SourceRunsDry(tokens, data, n + 1);
  }

  /**
   The loop reaches its break exactly when the last token is not blank, and then
   it has dispatched every trimmed token that is not blank, in order, once for
   each loop entry.
   */
  lemma LoopEndsIffLastTokenIsNotBlank(tokens: seq<string>, data: seq<EnvVars>)
    ensures (exists n :: After(tokens, data, n).stopped) <==> EndsWell(tokens)
    ensures forall n | After(tokens, data, n).stopped :: After(tokens, data, n).dispatched == TokenEvents(tokens, data)
  {
    forall n | After(tokens, data, n).stopped
      ensures EndsWell(tokens) && After(tokens, data, n).dispatched == TokenEvents(tokens, data)
    {
      AfterOnCourse(tokens, data, n);
    }
    if EndsWell(tokens) {
      var last := SourceRunsDry(tokens, data, 0);
      AfterOnCourse(tokens, data, last);
    }
  }

  /**
   Otherwise the exhausted source answers every further call with an error and no
   successor, and the loop spins on it for ever.
   */
  lemma ExhaustedSourceSpins(tokens: seq<string>, data: seq<EnvVars>, n: nat)
    requires !EndsWell(tokens) && !After(tokens, data, n).source.hasNext
    ensures After(tokens, data, n + 1) == After(tokens, data, n)
    ensures var outcome := NextOutcome(tokens, data, After(tokens, data, n).source);
            outcome.event == None && !outcome.HasNext()
    ensures !After(tokens, data, n).stopped && After(tokens, data, n).dispatched == TokenEvents(tokens, data)
  {
    AfterOnCourse(tokens, data, n);
  }

  // A file "1,\n" split at commas ends in a blank token: the driver never stops.
  lemma TrailingNewlineSpins(data: seq<EnvVars>, n: nat)
    ensures SplitAt.SplitAll("1,\n", ",") == ["1", "\n"]
    ensures !After(["1", "\n"], data, n).stopped
  {
    var stream := "1,\n";
    assert stream[0..1] == "1" && stream[1..2] == ",";
    assert SplitAt.Index(stream, ",") == Some(1);
    assert stream[2..] == "\n" && "\n"[0..1] == "\n";
    SplitAt.LeftmostIsIndex("\n", ",", None);
    assert stream[..1] == "1";
    assert TrimLeft("\n") == TrimLeft("\n"[1..]) == "";
    LoopEndsIffLastTokenIsNotBlank(["1", "\n"], data);
  }

  lemma EntryOfItsLoop(tokens: seq<string>, data: seq<EnvVars>, places: seq<nat>, events: seq<Event>)
    requires AllDueAt(tokens, data, places, events)
    ensures forall event | event in events ::
              if data == [] then event.loopNum == 0 && event.envVars == None
              else event.loopNum < |data| && event.envVars == Some(data[event.loopNum])
  {
    forall event | event in events
      ensures if data == [] then event.loopNum == 0 && event.envVars == None
              else event.loopNum < |data| && event.envVars == Some(data[event.loopNum])
    {
      var k :| 0 <= k < |events| && events[k] == event;
      assert DueAt(tokens, data, places, k, event);
    }
  }

  /**
   The loop over the real generator, on a stream where it ends.
   */
  method RunStream(tokens: seq<string>, data: seq<EnvVars>) returns (dispatched: seq<Event>)
    requires EndsWell(tokens)
    ensures dispatched == TokenEvents(tokens, data)
    ensures AllDueAt(tokens, data, NotBlank(tokens), dispatched)
    ensures forall event | event in dispatched ::
              if data == [] then event.loopNum == 0 && event.envVars == None
              else event.loopNum < |data| && event.envVars == Some(data[event.loopNum])
  {
    var generator := new StreamingEventGenerator(tokens, data);
    dispatched := [];
    var stopped := false;
    ghost var n := 0;
    AfterOnCourse(tokens, data, 0);
    while !stopped
      invariant generator.Valid() && fresh(generator.Repr()) && generator.tokens == tokens && generator.data == data
      invariant After(tokens, data, n) == Drive(generator.State(), dispatched, stopped)
      invariant OnCourse(tokens, data, After(tokens, data, n))
      decreases TokensLeft(tokens, After(tokens, data, n).source), Rounds(data) - After(tokens, data, n).source.loop
    {
      IterationProgresses(tokens, data, n);
      AfterOnCourse(tokens, data, n + 1);
      n := n + 1;
      var event, hasNext := generator.NextEvent();
      if event.None? {
        continue;
      }
      dispatched := dispatched + [event.value];
      if !hasNext {
        stopped := true;
      }
    }
    TokenEventsAt(tokens, data);
    EntryOfItsLoop(tokens, data, NotBlank(tokens), dispatched);
  }
}
