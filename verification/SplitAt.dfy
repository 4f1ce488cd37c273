/** The delimiter split function, driven by a scanner over any buffering of the stream. */
module SplitAt {
  import opened Wrappers

  // -------- bytes.Index --------

  predicate MatchAt(data: string, sep: string, i: nat) {
    i + |sep| <= |data| && data[i..i + |sep|] == sep
  }

  function IndexFrom(data: string, sep: string, i: nat): (found: Option<nat>)
    ensures found.Some? ==> i <= found.value <= |data| - |sep|
    decreases |data| - i
  {
    if i + |sep| > |data| then None
    else if MatchAt(data, sep, i) then Some(i)
    else IndexFrom(data, sep, i + 1)
  }

  function Index(data: string, sep: string): Option<nat> {
    IndexFrom(data, sep, 0)
  }

  ghost predicate LeftmostFrom(data: string, sep: string, i: nat, found: Option<nat>) {
    match found
    case None => forall k: nat | k >= i :: !MatchAt(data, sep, k)
    case Some(p) => p >= i && MatchAt(data, sep, p) && forall k: nat | i <= k < p :: !MatchAt(data, sep, k)
  }

  // The search finds the leftmost match at or after i.
  lemma {:induction false} IndexIsLeftmost(data: string, sep: string, i: nat)
    ensures LeftmostFrom(data, sep, i, IndexFrom(data, sep, i))
    decreases |data| - i
  {
    if i + |sep| <= |data| && !MatchAt(data, sep, i) {
      IndexIsLeftmost(data, sep, i + 1);
    }
  }

  lemma LeftmostIsIndex(data: string, sep: string, found: Option<nat>)
    requires LeftmostFrom(data, sep, 0, found)
    ensures Index(data, sep) == found
  {
    IndexIsLeftmost(data, sep, 0);
  }

  // -------- the split function --------

  // A nil token asks for more data.
  datatype SplitResult = SplitResult(advance: nat, token: Option<string>)

  function SplitFunc(sep: string, data: string, atEOF: bool): (r: SplitResult)
    ensures r.advance <= |data|
  {
    if atEOF && data == "" then SplitResult(0, None)
    else
      var i := Index(data, sep);
      if i.Some? then SplitResult(i.value + |sep|, Some(data[..i.value]))
      else if atEOF then SplitResult(|data|, Some(data))
      else SplitResult(0, None)
  }

  // -------- the whole stream at once --------

  function SplitAll(stream: string, sep: string): seq<string>
    requires sep != ""
    decreases |stream|
  {
    if stream == "" then []
    else
      var i := Index(stream, sep);
      if i.None? then [stream]
      else [stream[..i.value]] + SplitAll(stream[i.value + |sep|..], sep)
  }

  // A match found in the part already read is the leftmost in all of it.
  lemma MatchIsFinal(data: string, more: string, sep: string)
    requires Index(data, sep).Some?
    ensures Index(data + more, sep) == Index(data, sep)
  {
    var i, whole := Index(data, sep).value, data + more;
    IndexIsLeftmost(data, sep, 0);
    forall k: nat | k <= i
      ensures MatchAt(whole, sep, k) <==> MatchAt(data, sep, k)
    {
      assert whole[k..k + |sep|] == data[k..k + |sep|];
    }
    LeftmostIsIndex(whole, sep, Some(i));
  }

  lemma SplitAllNext(stream: string, sep: string, data: string)
    requires sep != "" && data <= stream && Index(data, sep).Some?
    ensures var i := Index(data, sep).value;
            SplitAll(stream, sep) == [data[..i]] + SplitAll(stream[i + |sep|..], sep)
  {
    assert stream == data + stream[|data|..];
    MatchIsFinal(data, stream[|data|..], sep);
    var i := Index(data, sep).value;
    assert stream[..i] == data[..i];
  }

  lemma Emit(rest: string, sep: string, data: string, atEOF: bool)
    requires sep != "" && data <= rest && (atEOF ==> data == rest)
    requires SplitFunc(sep, data, atEOF).token.Some?
    ensures var r := SplitFunc(sep, data, atEOF);
            r.advance > 0 && SplitAll(rest, sep) == [r.token.value] + SplitAll(rest[r.advance..], sep)
  {
    if Index(data, sep).Some? {
      SplitAllNext(rest, sep, data);
    } else {
      assert rest[|rest|..] == "";
    }
  }

  // One read of the scanner: some more of the stream, or its end, or both.
  method Refill(available: nat, size: nat) returns (now: nat, atEOF: bool)
    requires available <= size
    ensures available <= now <= size && (atEOF ==> now == size)
    ensures now > available || atEOF
  {
    if available == size {
      return available, true;
    }
    now :| available < now <= size;
    atEOF := false;
    if now == size {
      atEOF := *;
    }
  }

  /**
   A scanner that reads the stream in pieces of any size and learns of its end at
   any moment after the last piece. The tokens are those of the one-shot split,
   and every token shortens what is left.
   */
  method ScanAll(stream: string, sep: string) returns (tokens: seq<string>)
    requires sep != ""
    ensures tokens == SplitAll(stream, sep)
  {
    tokens := [];
    var start, available, atEOF := 0, 0, false;
    while true
      invariant start <= available <= |stream| && (atEOF ==> available == |stream|)
      invariant tokens + SplitAll(stream[start..], sep) == SplitAll(stream, sep)
      decreases |stream| - start, |stream| - available, !atEOF
    {
      var r := SplitFunc(sep, stream[start..available], atEOF);
      if r.token.Some? {
        NextToken(stream, sep, start, available, atEOF, tokens);
        tokens := tokens + [r.token.value];
        start := start + r.advance;
      } else if atEOF {
        assert stream[start..] == "";
        return;
      } else {
        available, atEOF := Refill(available, |stream|);
      }
    }
  }

  lemma NextToken(stream: string, sep: string, start: nat, available: nat, atEOF: bool, tokens: seq<string>)
    requires sep != "" && start <= available <= |stream| && (atEOF ==> available == |stream|)
    requires SplitFunc(sep, stream[start..available], atEOF).token.Some?
    ensures var r := SplitFunc(sep, stream[start..available], atEOF);
            && r.advance > 0 && start + r.advance <= available
            && tokens + [r.token.value] + SplitAll(stream[start + r.advance..], sep)
               == tokens + SplitAll(stream[start..], sep)
  {
    var r := SplitFunc(sep, stream[start..available], atEOF);
    Emit(stream[start..], sep, stream[start..available], atEOF);
    assert stream[start..][r.advance..] == stream[start + r.advance..];
  }

  // -------- what the split means --------

  function Join(tokens: seq<string>, sep: string): string {
    if tokens == [] then ""
    else if |tokens| == 1 then tokens[0]
    else tokens[0] + sep + Join(tokens[1..], sep)
  }

  lemma FirstIsClear(stream: string, sep: string, i: nat)
    requires sep != "" && Index(stream, sep) == Some(i)
    ensures Index(stream[..i], sep) == None
  {
    var first := stream[..i];
    IndexIsLeftmost(stream, sep, 0);
    forall k: nat
      ensures !MatchAt(first, sep, k)
    {
      if k + |sep| <= i {
        assert stream[k..k + |sep|] == first[k..k + |sep|];
        assert !MatchAt(stream, sep, k);
      }
    }
    LeftmostIsIndex(first, sep, None);
  }

  lemma JoinCons(first: string, tokens: seq<string>, sep: string)
    ensures Join([first] + tokens, sep) == if tokens == [] then first else first + sep + Join(tokens, sep)
  {
    assert ([first] + tokens)[1..] == tokens;
  }

  /**
   Joining the tokens gives the stream back, up to one delimiter at its end; without
   that one the last token is not empty.
   */
  lemma {:induction false} JoinGivesStream(stream: string, sep: string)
    requires sep != ""
    ensures var joined := Join(SplitAll(stream, sep), sep);
            var tokens := SplitAll(stream, sep);
            || (stream == joined && (tokens != [] ==> tokens[|tokens| - 1] != ""))
            || (stream == joined + sep && tokens != [])
    decreases |stream|
  {
    var i := Index(stream, sep);
    if stream != "" && i.Some? {
      var first, rest := stream[..i.value], stream[i.value + |sep|..];
      var tokens := SplitAll(rest, sep);
      CutAtIndex(stream, sep);
      JoinGivesStream(rest, sep);
      JoinCons(first, tokens, sep);
      CarryDelimiter(first, sep, rest, tokens);
    }
  }

  lemma CutAtIndex(stream: string, sep: string)
    requires Index(stream, sep).Some?
    ensures var i := Index(stream, sep).value;
            i + |sep| <= |stream| && stream == stream[..i] + sep + stream[i + |sep|..]
  {
    IndexIsLeftmost(stream, sep, 0);
  }

  lemma CarryDelimiter(first: string, sep: string, rest: string, tokens: seq<string>)
    requires rest == Join(tokens, sep) || (rest == Join(tokens, sep) + sep && tokens != [])
    ensures var joined := if tokens == [] then first else first + sep + Join(tokens, sep);
            first + sep + rest == joined || first + sep + rest == joined + sep
  {
    var joined := first + sep + Join(tokens, sep);
    if tokens == [] {
      assert first + sep + rest == first + sep;
    } else if rest != Join(tokens, sep) {
      assert first + sep + (Join(tokens, sep) + sep) == joined + sep;
    }
  }

  lemma FirstIsLeftmost(stream: string, sep: string)
    requires Index(stream, sep).Some?
    ensures var i := Index(stream, sep).value;
            i <= |stream| && Index(stream[..i] + sep, sep) == Some(i)
  {
    CutAtIndex(stream, sep);
    IndexIsLeftmost(stream, sep, 0);
    var i := Index(stream, sep).value;
    var cut := stream[..i] + sep;
    assert cut == stream[..i + |sep|];
    forall k: nat | k <= i
      ensures MatchAt(cut, sep, k) <==> MatchAt(stream, sep, k)
    {
      assert cut[k..k + |sep|] == stream[k..k + |sep|];
    }
    LeftmostIsIndex(cut, sep, Some(i));
  }

  /**
   Each token that a delimiter follows reaches up to the first place where one begins.
   */
  lemma {:induction false} TokensAreLeftmost(stream: string, sep: string, k: nat)
    requires sep != "" && k < |SplitAll(stream, sep)|
    requires k + 1 < |SplitAll(stream, sep)| || stream != Join(SplitAll(stream, sep), sep)
    ensures var t := SplitAll(stream, sep)[k]; Index(t + sep, sep) == Some(|t|)
    decreases |stream|
  {
    var i := Index(stream, sep);
    if i.Some? {
      var rest := stream[i.value + |sep|..];
      if k == 0 {
        FirstIsLeftmost(stream, sep);
      } else {
        CutAtIndex(stream, sep);
        JoinCons(stream[..i.value], SplitAll(rest, sep), sep);
        TokensAreLeftmost(rest, sep, k - 1);
      }
    }
  }

  /**
   No token contains the delimiter.
   */
  lemma {:induction false} TokensAreClear(stream: string, sep: string, t: string)
    requires sep != "" && t in SplitAll(stream, sep)
    ensures Index(t, sep) == None
    decreases |stream|
  {
    var i := Index(stream, sep);
    if i.Some? {
      FirstIsClear(stream, sep, i.value);
      if t != stream[..i.value] {
        TokensAreClear(stream[i.value + |sep|..], sep, t);
      }
    }
  }
}
