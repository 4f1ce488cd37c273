/** Names of Argo workflows, and when those of an array compute differ from each other. */
module WorkflowNames {
  import opened Decimal
  import opened Generators
  import opened KeyValues
  import JobNames
  import opened Slugs

  function Suffix(loopNum: nat): string {
    if loopNum > 0 then "." + Itoa(loopNum) else ""
  }

  // The name that SubmitJobs gives to the workflow of an event, from the event id and
  // the identifier and loop number of its first job.
  function WorkflowName(eventId: string, identifier: string, loopNum: nat): string {
    eventId + "." + Slug(identifier) + Suffix(loopNum)
  }

  // -------- reading a name back --------

  lemma DotEndsText(a: string, x: string, b: string, y: string)
    requires '.' !in b && a + x == b + y
    requires x == "" || x[0] == '.'
    ensures |b| <= |a|
  {
    assert forall i | 0 <= i < |b| :: b[i] == (b + y)[i] && b[i] != '.';
    assert x != "" ==> (a + x)[|a|] == '.';
  }

  // Text without a dot, followed by nothing or a dot, can be told from what follows.
  lemma SplitAtDot(a: string, x: string, b: string, y: string)
    requires '.' !in a && '.' !in b && a + x == b + y
    requires (x == "" || x[0] == '.') && (y == "" || y[0] == '.')
    ensures a == b && x == y
  {
    DotEndsText(a, x, b, y);
    DotEndsText(b, y, a, x);
    assert a == (a + x)[..|a|] && b == (b + y)[..|b|];
    assert x == (a + x)[|a|..] && y == (b + y)[|b|..];
  }

  lemma SuffixInjective(i: nat, j: nat)
    requires Suffix(i) == Suffix(j)
    ensures i == j
  {
    if i > 0 && j > 0 {
      assert Suffix(i)[1..] == Digits(i) && Suffix(j)[1..] == Digits(j);
      DigitsInjective(i, j);
    }
  }

  lemma NoDotInSlug(name: string)
    ensures '.' !in Slug(name)
  {
    SlugIsSlug(name);
  }

  lemma DropFront(front: string, a: string, x: string, b: string, y: string)
    requires front + a + x == front + b + y
    ensures a + x == b + y
  {
    assert a + x == (front + a + x)[|front|..];
    assert b + y == (front + b + y)[|front|..];
  }

  lemma SameNameSameParts(eventId: string, a: string, i: nat, b: string, j: nat)
    requires WorkflowName(eventId, a, i) == WorkflowName(eventId, b, j)
    ensures Slug(a) == Slug(b) && i == j
  {
    DropFront(eventId + ".", Slug(a), Suffix(i), Slug(b), Suffix(j));
    NoDotInSlug(a);
    NoDotInSlug(b);
    SplitAtDot(Slug(a), Suffix(i), Slug(b), Suffix(j));
    SuffixInjective(i, j);
  }

  /**
   Within one event id, two workflows have the same name exactly if their identifiers
   have the same words and their loop numbers are equal.
   */
  lemma SameNameIff(eventId: string, a: string, i: nat, b: string, j: nat)
    ensures WorkflowName(eventId, a, i) == WorkflowName(eventId, b, j) <==> Words(a) == Words(b) && i == j
  {
    SameSlugIffSameWords(a, b);
    if WorkflowName(eventId, a, i) == WorkflowName(eventId, b, j) {
      SameNameSameParts(eventId, a, i, b, j);
    }
  }

  /**
   Split at its dots, a name gives the event id, the slug of the identifier, and the
   loop number unless that is zero.
   */
  lemma NameParts(eventId: string, identifier: string, loopNum: nat)
    requires '.' !in eventId
    ensures JobNames.Split(WorkflowName(eventId, identifier, loopNum), '.')
         == [eventId, Slug(identifier)] + if loopNum == 0 then [] else [Itoa(loopNum)]
  {
    var slug := Slug(identifier);
    NoDotInSlug(identifier);
    if loopNum == 0 {
      assert WorkflowName(eventId, identifier, loopNum) == eventId + ['.'] + slug;
      JobNames.SplitNone(slug, '.');
      JobNames.SplitAcross(eventId, '.', slug);
    } else {
      assert WorkflowName(eventId, identifier, loopNum) == eventId + ['.'] + (slug + ['.'] + Itoa(loopNum));
      JobNames.SplitAcross(slug, '.', Itoa(loopNum));
      JobNames.SplitNone(Itoa(loopNum), '.');
      JobNames.SplitAcross(eventId, '.', slug + ['.'] + Itoa(loopNum));
    }
  }

  // -------- the names of an array compute --------

  function Abs(n: int): nat {
    if n < 0 then -n else n
  }

  // The sign of an identifier does not reach the name.
  lemma WordsOfNumber(n: int)
    ensures Words(Itoa(n)) == [Digits(Abs(n))]
  {
    var digits := Digits(Abs(n));
    if n < 0 {
      WordsAppend("-", digits);
      assert "-"[..0] == "";
    } else {
      WordsAppend("", digits);
      assert "" + digits == digits;
    }
  }

  // What the first job of an event gets besides the identifier.
  datatype Inputs = Inputs(manifestEnv: KeyValuePairs, payloadId: string, manifestId: string,
                           plugin: string, additional: KeyValuePairs)
  {
    // Neither the manifest nor the event's own variables name an identifier.
    predicate LeavesIdentifier() {
      !HasKey(manifestEnv, CC_EVENT_IDENTIFIER) && !HasKey(additional, CC_EVENT_IDENTIFIER)
    }
  }

  // The workflow name of an event, read from the environment of its first job.
  function NameOf(eventId: string, event: Event, inputs: Inputs): string {
    var env := JobEnvironment(inputs.manifestEnv, inputs.payloadId, inputs.manifestId,
                              event.identifier, inputs.plugin, inputs.additional);
    WorkflowName(eventId, GetVal(env, CC_EVENT_IDENTIFIER), event.loopNum)
  }

  lemma NameFromIdentifier(eventId: string, event: Event, inputs: Inputs)
    requires inputs.LeavesIdentifier()
    ensures NameOf(eventId, event, inputs) == WorkflowName(eventId, event.identifier, event.loopNum)
  {
    IdentifierSeen(inputs.manifestEnv, inputs.payloadId, inputs.manifestId,
                   event.identifier, inputs.plugin, inputs.additional);
    LastValWithout(inputs.additional, CC_EVENT_IDENTIFIER, event.identifier);
  }

  lemma ProductGrows(a: int, b: int, m: nat)
    requires a <= b
    ensures a * m <= b * m
  {
  }

  lemma QuotientBelow(k: nat, m: nat, n: int)
    requires m > 0 && k < n * m
    ensures k / m < n
  {
    var q := k / m;
    assert q * m <= k;
    if n <= q {
      ProductGrows(n, q, m);
    }
  }

  lemma NumberInRange(start: int, end: int, data: seq<EnvVars>, k: nat)
    requires k < ArrayCount(start, end, data)
    ensures start <= start + k / Rounds(data) <= Max(start, end)
  {
    QuotientBelow(k, Rounds(data), Max(1, end - start + 1));
  }

  lemma SameQuotientAndRest(j: nat, k: nat, m: nat)
    requires m > 0 && j / m == k / m && j % m == k % m
    ensures j == k
  {
    assert j == m * (j / m) + j % m && k == m * (k / m) + k % m;
  }

  // The event of number n in its first round.
  lemma FirstRound(start: int, end: int, data: seq<EnvVars>, n: int) returns (k: nat)
    requires start <= n <= end
    ensures k < ArrayCount(start, end, data)
    ensures ArrayEvent(start, data, k) == Event(Itoa(n), 0, EnvAt(data, 0))
  {
    var m := Rounds(data);
    k := (n - start) * m;
    DivModUnique(k, m, n - start, 0);
    MultipleIsFar(end - n + 1, m);
    assert ArrayCount(start, end, data) == (end - start + 1) * m == k + (end - n + 1) * m;
  }

  lemma SameNameSameNumber(eventId: string, p: int, i: nat, q: int, j: nat)
    requires (p >= 0 && q >= 0) || (p <= 0 && q <= 0)
    requires WorkflowName(eventId, Itoa(p), i) == WorkflowName(eventId, Itoa(q), j)
    ensures p == q && i == j
  {
    SameNameIff(eventId, Itoa(p), i, Itoa(q), j);
    WordsOfNumber(p);
    WordsOfNumber(q);
    assert [Digits(Abs(p))][0] == [Digits(Abs(q))][0];
    DigitsInjective(Abs(p), Abs(q));
  }

  lemma SameNameSameEvent(eventId: string, start: int, end: int, data: seq<EnvVars>, j: nat, k: nat)
    requires start >= 0 || end <= 0
    requires j < ArrayCount(start, end, data) && k < ArrayCount(start, end, data)
    ensures var a, b := ArrayEvent(start, data, j), ArrayEvent(start, data, k);
            WorkflowName(eventId, a.identifier, a.loopNum) == WorkflowName(eventId, b.identifier, b.loopNum) <==> j == k
  {
    var a, b := ArrayEvent(start, data, j), ArrayEvent(start, data, k);
    var m := Rounds(data);
    NumberInRange(start, end, data, j);
    NumberInRange(start, end, data, k);
    if WorkflowName(eventId, a.identifier, a.loopNum) == WorkflowName(eventId, b.identifier, b.loopNum) {
      SameNameSameNumber(eventId, start + j / m, j % m, start + k / m, k % m);
      SameQuotientAndRest(j, k, m);
    }
  }

  ghost predicate NamesDistinct(eventId: string, start: int, data: seq<EnvVars>, inputs: seq<Inputs>) {
    forall j, k | 0 <= j < k < |inputs| ::
      NameOf(eventId, ArrayEvent(start, data, j), inputs[j]) != NameOf(eventId, ArrayEvent(start, data, k), inputs[k])
  }

  /**
   For an array compute whose jobs do not set the identifier themselves, the workflow
   names of all generated events differ from each other exactly if the range does not
   hold a number together with its negation.
   */
  lemma ArrayNamesDistinct(eventId: string, start: int, end: int, data: seq<EnvVars>, inputs: seq<Inputs>)
    requires |inputs| == ArrayCount(start, end, data)
    requires forall k | 0 <= k < |inputs| :: inputs[k].LeavesIdentifier()
    ensures NamesDistinct(eventId, start, data, inputs) <==> start >= 0 || end <= 0
  {
    forall k | 0 <= k < |inputs|
      ensures var event := ArrayEvent(start, data, k);
              NameOf(eventId, event, inputs[k]) == WorkflowName(eventId, event.identifier, event.loopNum)
    {
      NameFromIdentifier(eventId, ArrayEvent(start, data, k), inputs[k]);
    }
    if start >= 0 || end <= 0 {
      forall j, k | 0 <= j < k < |inputs|
        ensures NameOf(eventId, ArrayEvent(start, data, j), inputs[j])
             != NameOf(eventId, ArrayEvent(start, data, k), inputs[k])
      {
        if NameOf(eventId, ArrayEvent(start, data, j), inputs[j])
           == NameOf(eventId, ArrayEvent(start, data, k), inputs[k])
        {
          SameNameSameEvent(eventId, start, end, data, j, k);
        }
      }
    } else {
      OppositeNumbersCollide(eventId, start, end, data, inputs);
    }
  }

  lemma OppositeNumbersCollide(eventId: string, start: int, end: int, data: seq<EnvVars>, inputs: seq<Inputs>)
    requires start < 0 < end && |inputs| == ArrayCount(start, end, data)
    requires forall k | 0 <= k < |inputs| :: inputs[k].LeavesIdentifier()
    ensures !NamesDistinct(eventId, start, data, inputs)
  {
    var j := FirstRound(start, end, data, -1);
    var k := FirstRound(start, end, data, 1);
    WordsOfNumber(-1);
    WordsOfNumber(1);
    SameNameIff(eventId, Itoa(-1), 0, Itoa(1), 0);
    NameFromIdentifier(eventId, ArrayEvent(start, data, j), inputs[j]);
    NameFromIdentifier(eventId, ArrayEvent(start, data, k), inputs[k]);
    assert Itoa(-1) != Itoa(1) by {
      assert Itoa(-1)[0] == '-' && Itoa(1)[0] in Digits(1);
    }
    assert j != k;
    assert NameOf(eventId, ArrayEvent(start, data, j), inputs[j])
        == NameOf(eventId, ArrayEvent(start, data, k), inputs[k]);
  }
}
