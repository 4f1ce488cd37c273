/** Job names: the format of RunParallel, the parser of JobNameParts and the label split. */
module JobNames {
  import opened UuidText
  import opened Wrappers

  // fmt.Sprintf("%s_c_%s_e_%s_j_%s", profile, compute, event, job)
  function JobName(profile: string, compute: string, event: string, job: string): string {
    profile + "_c_" + compute + "_e_" + event + "_j_" + job
  }

  datatype JobNameParts = JobNameParts(compute: string, event: string, job: string)

  // -------- Parse: leftmost, non-overlapping matches --------

  function FindAll(s: string): seq<string>
    decreases |s|
  {
    if |s| < 36 then []
    else if IsUuidText(s[..36]) then [s[..36]] + FindAll(s[36..])
    else FindAll(s[1..])
  }

  predicate UuidAt(s: string, p: nat) {
    p + 36 <= |s| && IsUuidText(s[p..p + 36])
  }

  ghost predicate Outside(starts: seq<nat>, p: nat) {
    forall i | 0 <= i < |starts| :: p < starts[i] || starts[i] + 36 <= p
  }

  // Non-overlapping matches from left to right, with no match that begins between them.
  ghost predicate LeftmostMatches(s: string, starts: seq<nat>) {
    && (forall i | 0 <= i < |starts| :: UuidAt(s, starts[i]))
    && (forall i | 0 < i < |starts| :: starts[i - 1] + 36 <= starts[i])
    && (forall p: nat {:trigger Outside(starts, p)} :: Outside(starts, p) ==> !UuidAt(s, p))
  }

  // The texts at the given places.
  function Windows(s: string, starts: seq<nat>): (texts: seq<string>)
    requires forall i | 0 <= i < |starts| :: starts[i] + 36 <= |s|
    ensures |texts| == |starts|
    ensures forall i | 0 <= i < |texts| :: texts[i] == s[starts[i]..starts[i] + 36]
  {
    seq(|starts|, i requires 0 <= i < |starts| => s[starts[i]..starts[i] + 36])
  }

  function Shifted(starts: seq<nat>, offset: nat): (later: seq<nat>)
    ensures |later| == |starts| && forall i | 0 <= i < |later| :: later[i] == starts[i] + offset
  {
    seq(|starts|, i requires 0 <= i < |starts| => starts[i] + offset)
  }

  lemma UuidAtShift(s: string, offset: nat, p: nat)
    requires offset <= |s|
    ensures UuidAt(s[offset..], p) <==> UuidAt(s, p + offset)
    ensures p + offset + 36 <= |s| ==> s[offset..][p..p + 36] == s[p + offset..p + offset + 36]
  {
    if p + offset + 36 <= |s| {
      assert s[offset..][p..p + 36] == s[p + offset..p + offset + 36];
    }
  }

  lemma OutsideShift(starts: seq<nat>, offset: nat, p: nat)
    ensures Outside(Shifted(starts, offset), p + offset) <==> Outside(starts, p)
  {
    var later := Shifted(starts, offset);
    assert forall i | 0 <= i < |starts| :: later[i] == starts[i] + offset;
  }

  // Nothing matches at the start: the matches are those of the rest.
  lemma MatchesSkip(s: string, rest: seq<nat>)
    requires s != "" && !UuidAt(s, 0) && LeftmostMatches(s[1..], rest)
    ensures LeftmostMatches(s, Shifted(rest, 1))
    ensures Windows(s, Shifted(rest, 1)) == Windows(s[1..], rest)
  {
    var starts := Shifted(rest, 1);
    forall i | 0 <= i < |starts|
      ensures UuidAt(s, starts[i])
      ensures s[starts[i]..starts[i] + 36] == s[1..][rest[i]..rest[i] + 36]
    {
      assert UuidAt(s[1..], rest[i]);
      UuidAtShift(s, 1, rest[i]);
    }
    forall p: nat | Outside(starts, p)
      ensures !UuidAt(s, p)
    {
      if p > 0 {
        UuidAtShift(s, 1, p - 1);
        OutsideShift(rest, 1, p - 1);
      }
    }
  }

  function Taken(rest: seq<nat>): (starts: seq<nat>)
    ensures |starts| == |rest| + 1 && starts[0] == 0
    ensures forall i | 0 < i < |starts| :: starts[i] == rest[i - 1] + 36
  {
    [0] + Shifted(rest, 36)
  }

  lemma OutsideTaken(rest: seq<nat>, p: nat)
    requires Outside(Taken(rest), p)
    ensures p >= 36 && Outside(rest, p - 36)
  {
    var starts := Taken(rest);
    assert p < starts[0] || starts[0] + 36 <= p;
    forall i | 0 <= i < |rest|
      ensures p - 36 < rest[i] || rest[i] + 36 <= p - 36
    {
      assert starts[i + 1] == rest[i] + 36;
    }
  }

  lemma TakenMatches(s: string, rest: seq<nat>, i: nat)
    requires UuidAt(s, 0) && LeftmostMatches(s[36..], rest) && i <= |rest|
    ensures UuidAt(s, Taken(rest)[i])
    ensures i > 0 ==> s[Taken(rest)[i]..Taken(rest)[i] + 36] == s[36..][rest[i - 1]..rest[i - 1] + 36]
  {
    if i > 0 {
      assert UuidAt(s[36..], rest[i - 1]);
      UuidAtShift(s, 36, rest[i - 1]);
    }
  }

  // A match at the start, and then those behind it.
  lemma MatchesTake(s: string, rest: seq<nat>)
    requires UuidAt(s, 0) && LeftmostMatches(s[36..], rest)
    ensures LeftmostMatches(s, Taken(rest))
  {
    var starts := Taken(rest);
    forall i | 0 <= i < |starts|
      ensures UuidAt(s, starts[i])
    {
      TakenMatches(s, rest, i);
    }
    forall p: nat | Outside(starts, p)
      ensures !UuidAt(s, p)
    {
      OutsideTaken(rest, p);
      UuidAtShift(s, 36, p - 36);
    }
  }

  lemma WindowsTake(s: string, rest: seq<nat>)
    requires UuidAt(s, 0) && LeftmostMatches(s[36..], rest) && LeftmostMatches(s, Taken(rest))
    ensures Windows(s, Taken(rest)) == [s[..36]] + Windows(s[36..], rest)
  {
    var texts, more := Windows(s, Taken(rest)), Windows(s[36..], rest);
    assert texts[0] == s[0..36] == s[..36];
    forall i | 0 < i < |texts|
      ensures texts[i] == more[i - 1]
    {
      TakenMatches(s, rest, i);
    }
  }

  /**
   The search gives the leftmost, non-overlapping matches.
   */
  lemma {:induction false} FindAllIsLeftmost(s: string) returns (starts: seq<nat>)
    ensures LeftmostMatches(s, starts) && FindAll(s) == Windows(s, starts)
    decreases |s|
  {
    if |s| < 36 {
      starts := [];
    } else if IsUuidText(s[..36]) {
      assert s[0..36] == s[..36];
      var rest := FindAllIsLeftmost(s[36..]);
      MatchesTake(s, rest);
      WindowsTake(s, rest);
      starts := Taken(rest);
    } else {
      assert s[0..36] == s[..36];
      var rest := FindAllIsLeftmost(s[1..]);
      MatchesSkip(s, rest);
      starts := Shifted(rest, 1);
    }
  }

  lemma {:induction false} Increasing(s: string, starts: seq<nat>, i: nat, j: nat)
    requires LeftmostMatches(s, starts) && i < j < |starts|
    ensures starts[i] + 36 <= starts[j]
  {
    if i + 1 < j {
      Increasing(s, starts, i, j - 1);
    }
  }

  // Up to a common prefix the next match is the same in both lists.
  lemma NextMatchIsFirst(s: string, a: seq<nat>, b: seq<nat>, n: nat)
    requires LeftmostMatches(s, a) && LeftmostMatches(s, b)
    requires n < |a| && n <= |b| && forall i | 0 <= i < n :: a[i] == b[i]
    ensures n < |b| && b[n] <= a[n]
  {
    assert UuidAt(s, a[n]) && !Outside(b, a[n]);
    var i :| 0 <= i < |b| && b[i] <= a[n] < b[i] + 36;
    if i < n {
      Increasing(s, a, i, n);
    } else if n < i {
      Increasing(s, b, n, i);
    }
  }

  lemma {:induction false} SamePrefix(s: string, a: seq<nat>, b: seq<nat>, n: nat)
    requires LeftmostMatches(s, a) && LeftmostMatches(s, b) && n <= |a|
    ensures n <= |b| && forall i | 0 <= i < n :: a[i] == b[i]
  {
    if n == 0 {
    } else {
      SamePrefix(s, a, b, n - 1);
      NextMatchIsFirst(s, a, b, n - 1);
      NextMatchIsFirst(s, b, a, n - 1);
    }
  }

  /**
   There is only one such list of matches.
   */
  lemma MatchesAreUnique(s: string, a: seq<nat>, b: seq<nat>)
    requires LeftmostMatches(s, a) && LeftmostMatches(s, b)
    ensures a == b
  {
    SamePrefix(s, a, b, |a|);
    SamePrefix(s, b, a, |b|);
  }

  // The parts at three matches; any other number of matches is an error.
  ghost predicate ParsedAt(jobName: string, starts: seq<nat>, parts: Option<JobNameParts>)
    requires LeftmostMatches(jobName, starts)
  {
    var texts := Windows(jobName, starts);
    match parts
    case None => |starts| != 3
    case Some(p) => texts == [p.compute, p.event, p.job]
  }

  method Parse(jobName: string) returns (parts: Option<JobNameParts>)
    ensures exists starts :: LeftmostMatches(jobName, starts) && ParsedAt(jobName, starts, parts)
  {
    ghost var starts := FindAllIsLeftmost(jobName);
    var guids := FindAll(jobName);
    if |guids| != 3 {
      parts := None;
    } else {
      parts := Some(JobNameParts(guids[0], guids[1], guids[2]));
    }
    assert ParsedAt(jobName, starts, parts);
  }

  // No match reaches across an underscore.
  lemma MatchStopsAtUnderscore(s: string, t: string)
    requires |s| < 36 <= |s + "_" + t|
    ensures !IsUuidText((s + "_" + t)[..36])
  {
    assert (s + "_" + t)[..36][|s|] == '_';
  }

  lemma {:induction false} FindAllAcross(s: string, t: string)
    ensures FindAll(s + "_" + t) == FindAll(s) + FindAll(t)
    decreases |s|
  {
    var whole := s + "_" + t;
    if |whole| < 36 {
    } else if |s| < 36 {
      MatchStopsAtUnderscore(s, t);
      if s == "" {
        assert whole[1..] == t;
      } else {
        assert whole[1..] == s[1..] + "_" + t;
        FindAllAcross(s[1..], t);
      }
    } else {
      assert whole[..36] == s[..36];
      if IsUuidText(s[..36]) {
        assert whole[36..] == s[36..] + "_" + t;
        FindAllAcross(s[36..], t);
        assert FindAll(s) == [s[..36]] + FindAll(s[36..]);
      } else {
        assert whole[1..] == s[1..] + "_" + t;
        FindAllAcross(s[1..], t);
      }
    }
  }

  lemma FindAllInUuid(u: string)
    requires IsUuidText(u)
    ensures FindAll(u) == [u]
  {
    assert u[..36] == u;
  }

  /**
   The parser finds what the profile prefix holds, and then the three parts.
   */
  lemma FindAllInJobName(profile: string, compute: string, event: string, job: string)
    requires IsUuidText(compute) && IsUuidText(event) && IsUuidText(job)
    ensures FindAll(JobName(profile, compute, event, job)) == FindAll(profile) + [compute, event, job]
  {
    var j := "j" + "_" + job;
    var ej := "e" + "_" + (event + "_" + j);
    var cej := "c" + "_" + (compute + "_" + ej);
    assert JobName(profile, compute, event, job) == profile + "_" + cej;
    FindAllAcross(profile, cej);
    FindAllAcross("c", compute + "_" + ej);
    FindAllAcross(compute, ej);
    FindAllAcross("e", event + "_" + j);
    FindAllAcross(event, j);
    FindAllAcross("j", job);
    FindAllInUuid(compute);
    FindAllInUuid(event);
    FindAllInUuid(job);
  }

  ghost predicate HoldsUuid(s: string) {
    exists p: nat :: UuidAt(s, p)
  }

  lemma FindAllEmpty(s: string)
    ensures FindAll(s) == [] <==> !HoldsUuid(s)
  {
    var starts := FindAllIsLeftmost(s);
    if starts == [] {
      forall p: nat
        ensures !UuidAt(s, p)
      {
        assert Outside(starts, p);
      }
    } else {
      assert UuidAt(s, starts[0]);
    }
  }

  /**
   Round trip: a formatted name is parsed to the parts it was made of, unless the
   profile prefix holds a UUID text of its own; then it is refused. A prefix of at
   most 35 characters holds none.
   */
  lemma ParseRoundTrip(profile: string, compute: string, event: string, job: string,
                       starts: seq<nat>, parts: Option<JobNameParts>)
    requires IsUuidText(compute) && IsUuidText(event) && IsUuidText(job)
    requires var name := JobName(profile, compute, event, job);
             LeftmostMatches(name, starts) && ParsedAt(name, starts, parts)
    ensures parts == if HoldsUuid(profile) then None else Some(JobNameParts(compute, event, job))
    ensures |profile| <= 35 ==> !HoldsUuid(profile)
  {
    var name := JobName(profile, compute, event, job);
    var found := FindAllIsLeftmost(name);
    MatchesAreUnique(name, starts, found);
    FindAllInJobName(profile, compute, event, job);
    FindAllEmpty(profile);
    var texts := Windows(name, starts);
    assert texts == FindAll(profile) + [compute, event, job];
    if FindAll(profile) == [] {
      assert texts[0] == compute && texts[1] == event && texts[2] == job;
    } else {
      assert |texts| > 3;
    }
  }

  // -------- the label split of the simple Kubernetes provider --------

  // strings.Split on a one-character separator.
  function Split(s: string, sep: char): (parts: seq<string>)
    ensures parts != []
    decreases |s|
  {
    if s == "" then [""]
    else if s[0] == sep then [""] + Split(s[1..], sep)
    else
      var rest := Split(s[1..], sep);
      [[s[0]] + rest[0]] + rest[1..]
  }

  lemma {:induction false} SplitAcross(s: string, sep: char, t: string)
    requires sep !in s
    ensures Split(s + [sep] + t, sep) == [s] + Split(t, sep)
  {
    var whole := s + [sep] + t;
    if s == "" {
      assert whole[1..] == t;
    } else {
      assert whole[1..] == s[1..] + [sep] + t;
      SplitAcross(s[1..], sep, t);
      assert [s[0]] + s[1..] == s;
    }
  }

  lemma {:induction false} SplitNone(s: string, sep: char)
    requires sep !in s
    ensures Split(s, sep) == [s]
  {
    if s == "" {
    } else {
      SplitNone(s[1..], sep);
      assert [s[0]] + s[1..] == s;
    }
  }

  lemma UuidHasNoUnderscore(u: string)
    requires IsUuidText(u)
    ensures '_' !in u
  {
    forall k | 0 <= k < |u|
      ensures u[k] != '_'
    {
      assert IsDashPlace(k) || IsHex(u[k]);
    }
  }

  /**
   For a prefix without underscores there are seven pieces, and those at 2, 4 and 6
   are the same parts.
   */
  lemma SplitAgreesWithParse(profile: string, compute: string, event: string, job: string)
    requires IsUuidText(compute) && IsUuidText(event) && IsUuidText(job)
    requires '_' !in profile
    ensures var parts := Split(JobName(profile, compute, event, job), '_');
            && parts == [profile, "c", compute, "e", event, "j", job]
            && parts[2] == compute && parts[4] == event && parts[6] == job
  {
    UuidHasNoUnderscore(compute);
    UuidHasNoUnderscore(event);
    UuidHasNoUnderscore(job);
    var last := "j" + "_" + job;
    var middle := "e" + "_" + event + "_" + last;
    var all := "c" + "_" + compute + "_" + middle;
    assert JobName(profile, compute, event, job) == profile + "_" + all;
    SplitAcross(profile, '_', all);
    SplitLabelled("c", compute, middle);
    SplitLabelled("e", event, last);
    SplitLast("j", job);
  }

  lemma SplitLabelled(letter: string, text: string, rest: string)
    requires '_' !in letter && '_' !in text
    ensures Split(letter + "_" + text + "_" + rest, '_') == [letter, text] + Split(rest, '_')
  {
    SplitAcross(letter, '_', text + "_" + rest);
    SplitAcross(text, '_', rest);
    assert letter + "_" + text + "_" + rest == letter + "_" + (text + "_" + rest);
    assert [letter] + ([text] + Split(rest, '_')) == [letter, text] + Split(rest, '_');
  }

  lemma SplitLast(letter: string, text: string)
    requires '_' !in letter && '_' !in text
    ensures Split(letter + "_" + text, '_') == [letter, text]
  {
    SplitAcross(letter, '_', text);
    SplitNone(text, '_');
  }
}
