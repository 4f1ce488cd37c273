/** toSlugFast: a name turned into lower-case words with single hyphens between them. */
module Slugs {

  predicate IsUpper(c: char) {
    'A' <= c <= 'Z'
  }

  // What a word of a slug is made of.
  predicate IsPlain(c: char) {
    'a' <= c <= 'z' || '0' <= c <= '9'
  }

  predicate IsAlnum(c: char) {
    IsUpper(c) || IsPlain(c)
  }

  function Lower(c: char): char {
    if IsUpper(c) then c + 32 as char else c
  }

  // Whether the text ends inside a word.
  predicate InWord(s: string) {
    s != "" && IsAlnum(s[|s| - 1])
  }

  // The maximal runs of letters and digits of a name, in lower case.
  function Words(s: string): (ws: seq<string>)
    ensures InWord(s) ==> ws != []
  {
    if s == "" then []
    else
      var before, c := s[..|s| - 1], s[|s| - 1];
      var ws := Words(before);
      if !IsAlnum(c) then ws
      else if InWord(before) then ws[..|ws| - 1] + [ws[|ws| - 1] + [Lower(c)]]
      else ws + [[Lower(c)]]
  }

  predicate IsWord(w: string) {
    w != "" && forall c | c in w :: IsPlain(c)
  }

  function Hyphenated(ws: seq<string>): string {
    if ws == [] then ""
    else if |ws| == 1 then ws[0]
    else Hyphenated(ws[..|ws| - 1]) + "-" + ws[|ws| - 1]
  }

  function Slug(name: string): string {
    Hyphenated(Words(name))
  }

  // -------- the loop --------

  function TrimLeft(s: string): string {
    if s != "" && s[0] == '-' then TrimLeft(s[1..]) else s
  }

  function TrimRight(s: string): string {
    if s != "" && s[|s| - 1] == '-' then TrimRight(s[..|s| - 1]) else s
  }

  // What the builder holds after a prefix of the name: the hyphenated words, with a
  // hyphen in front and behind where the prefix has something else than a word.
  function Lead(s: string): string {
    if s != "" && !IsAlnum(s[0]) then "-" else ""
  }

  function Tail(s: string): string {
    if s == "" || InWord(s) || Words(s) == [] then "" else "-"
  }

  function Built(s: string): string {
    Lead(s) + Hyphenated(Words(s)) + Tail(s)
  }

  lemma {:induction false} WordsAreWords(s: string)
    ensures forall w | w in Words(s) :: IsWord(w)
  {
    if s == "" {
    } else {
      var before, c := s[..|s| - 1], s[|s| - 1];
      WordsAreWords(before);
      if InWord(before) {
        var ws := Words(before);
        assert ws[|ws| - 1] in ws;
      }
    }
  }

  lemma WordsGrow(s: string, c: char)
    ensures InWord(s + [c]) <==> IsAlnum(c)
    ensures Words(s + [c]) ==
      if !IsAlnum(c) then Words(s)
      else if InWord(s) then Words(s)[..|Words(s)| - 1] + [Words(s)[|Words(s)| - 1] + [Lower(c)]]
      else Words(s) + [[Lower(c)]]
  {
    assert (s + [c])[..|s + [c]| - 1] == s;
  }

  lemma GrowLast(ws: seq<string>, c: char)
    requires ws != []
    ensures Hyphenated(ws[..|ws| - 1] + [ws[|ws| - 1] + [c]]) == Hyphenated(ws) + [c]
  {
    var grown := ws[..|ws| - 1] + [ws[|ws| - 1] + [c]];
    assert grown[..|grown| - 1] == ws[..|ws| - 1];
    if |ws| > 1 {
      var front := Hyphenated(ws[..|ws| - 1]) + "-";
      assert front + (ws[|ws| - 1] + [c]) == (front + ws[|ws| - 1]) + [c];
    }
  }

  lemma AddWord(ws: seq<string>, w: string)
    ensures Hyphenated(ws + [w]) == if ws == [] then w else Hyphenated(ws) + "-" + w
  {
    assert (ws + [w])[..|ws|] == ws;
  }

  // A word has begun by the time a letter has been seen.
  lemma {:induction false} FirstLetterStartsWord(s: string)
    requires s != "" && IsAlnum(s[0])
    ensures Words(s) != []
  {
    if |s| > 1 {
      FirstLetterStartsWord(s[..|s| - 1]);
    }
  }

  // One turn of the loop, for each branch of its switch.
  lemma BuiltLetter(s: string, c: char)
    requires IsAlnum(c)
    ensures Built(s + [c]) == Built(s) + [Lower(c)]
  {
    WordsGrow(s, c);
    assert Lead(s + [c]) == Lead(s) && Tail(s + [c]) == "" by {
      LeadStays(s, c);
    }
    if InWord(s) {
      GrowLast(Words(s), Lower(c));
      assert Built(s + [c]) == Lead(s) + (Hyphenated(Words(s)) + [Lower(c)]);
    } else {
      NewWord(s, Lower(c));
    }
  }

  lemma LeadStays(s: string, c: char)
    requires IsAlnum(c)
    ensures Lead(s + [c]) == Lead(s)
  {
  }

  lemma Reassociate(a: string, b: string, c: string, d: string)
    ensures a + (b + c + d) == a + b + c + d
  {
  }

  lemma NewWord(s: string, c: char)
    requires !InWord(s)
    ensures Lead(s) + Hyphenated(Words(s) + [[c]]) == Built(s) + [c]
  {
    AddWord(Words(s), [c]);
    if Words(s) == [] {
      if s != "" && IsAlnum(s[0]) {
        FirstLetterStartsWord(s);
      }
      assert Hyphenated(Words(s)) == "";
    } else {
      Reassociate(Lead(s), Hyphenated(Words(s)), "-", [c]);
    }
  }

  lemma BuiltOther(s: string, c: char)
    requires !IsAlnum(c)
    ensures Built(s + [c]) == if s != "" && !InWord(s) then Built(s) else Built(s) + "-"
  {
    WordsGrow(s, c);
  }

  lemma {:induction false} HyphenatedEnds(ws: seq<string>)
    requires ws != [] && forall w | w in ws :: IsWord(w)
    ensures var s := Hyphenated(ws); s != "" && IsPlain(s[0]) && IsPlain(s[|s| - 1])
  {
    if |ws| == 1 {
      assert ws[0] in ws && IsWord(ws[0]) && ws[0][0] in ws[0] && ws[0][|ws[0]| - 1] in ws[0];
    } else {
      var w := ws[|ws| - 1];
      HyphenatedEnds(ws[..|ws| - 1]);
      assert w in ws && IsWord(w) && w[|w| - 1] in w;
    }
  }

  lemma TrimAround(lead: string, core: string, tail: string)
    requires (lead == "" || lead == "-") && (tail == "" || tail == "-")
    requires core != "" && core[0] != '-' && core[|core| - 1] != '-'
    ensures TrimRight(TrimLeft(lead + core + tail)) == core
  {
    var right := core + tail;
    assert TrimLeft(right) == right;
    if lead == "-" {
      assert (lead + core + tail)[1..] == right;
    } else {
      assert lead + core + tail == right;
    }
    if tail == "-" {
      assert right[..|right| - 1] == core;
    } else {
      assert right == core;
    }
  }

  lemma TrimBuilt(name: string)
    ensures TrimRight(TrimLeft(Built(name))) == Slug(name)
  {
    var ws := Words(name);
    WordsAreWords(name);
    if ws != [] {
      HyphenatedEnds(ws);
      TrimAround(Lead(name), Slug(name), Tail(name));
    } else {
      assert Built(name) == "" || Built(name) == "-";
      assert "-"[1..] == "";
    }
  }

  lemma Turn(name: string, i: nat)
    requires i < |name|
    ensures InWord(name[..i + 1]) <==> IsAlnum(name[i])
    ensures Built(name[..i + 1]) ==
      if IsAlnum(name[i]) then Built(name[..i]) + [Lower(name[i])]
      else if i > 0 && !InWord(name[..i]) then Built(name[..i])
      else Built(name[..i]) + "-"
  {
    var s, c := name[..i], name[i];
    assert name[..i + 1] == s + [c];
    WordsGrow(s, c);
    if IsAlnum(c) {
      BuiltLetter(s, c);
    } else {
      BuiltOther(s, c);
    }
  }

  method ToSlugFast(name: string) returns (slug: string)
    ensures slug == Slug(name)
  {
    var builder := "";
    var inHyphenSequence := false;
    for i := 0 to |name|
      invariant builder == Built(name[..i])
      invariant inHyphenSequence <==> i > 0 && !InWord(name[..i])
    {
      var b := name[i];
      Turn(name, i);
      if 'A' <= b <= 'Z' {
        builder := builder + [b + 32 as char];
        inHyphenSequence := false;
      } else if 'a' <= b <= 'z' || '0' <= b <= '9' {
        builder := builder + [b];
        inHyphenSequence := false;
      } else if !inHyphenSequence {
        builder := builder + "-";
        inHyphenSequence := true;
      }
    }
    assert name[..|name|] == name;
    TrimBuilt(name);
    slug := TrimRight(TrimLeft(builder));
  }

  // -------- what a slug is --------

  // Lower-case letters, digits and hyphens; no hyphen at an end or beside another.
  predicate IsSlug(s: string) {
    && (forall c | c in s :: IsPlain(c) || c == '-')
    && (s != "" ==> s[0] != '-' && s[|s| - 1] != '-')
    && forall i | 0 <= i < |s| - 1 :: s[i] != '-' || s[i + 1] != '-'
  }

  lemma AddWordKeepsSlug(s: string, w: string)
    requires IsSlug(s) && s != "" && IsWord(w)
    ensures IsSlug(s + "-" + w)
  {
    var t := s + "-" + w;
    forall i | 0 <= i < |t| - 1
      ensures t[i] != '-' || t[i + 1] != '-'
    {
      if i == |s| {
        assert w[0] in w;
      } else if i > |s| {
        assert w[i - |s| - 1] in w;
      }
    }
    assert w[|w| - 1] in w;
  }

  lemma {:induction false} HyphenatedIsSlug(ws: seq<string>)
    requires forall w | w in ws :: IsWord(w)
    ensures IsSlug(Hyphenated(ws))
  {
    if |ws| == 1 {
      assert ws[0] in ws && IsWord(ws[0]);
      WordIsSlug(ws[0]);
    } else if ws != [] {
      var init := ws[..|ws| - 1];
      HyphenatedIsSlug(init);
      HyphenatedEnds(init);
      assert ws[|ws| - 1] in ws;
      AddWordKeepsSlug(Hyphenated(init), ws[|ws| - 1]);
    }
  }

  lemma WordIsSlug(w: string)
    requires IsWord(w)
    ensures IsSlug(w)
  {
    forall i | 0 <= i < |w|
      ensures w[i] != '-'
    {
      assert w[i] in w;
    }
  }

  /** Every result is a slug. */
  lemma SlugIsSlug(name: string)
    ensures IsSlug(Slug(name))
  {
    WordsAreWords(name);
    HyphenatedIsSlug(Words(name));
  }

  // -------- reading the words back --------

  lemma {:induction false} WordsAppend(s: string, w: string)
    requires !InWord(s) && IsWord(w)
    ensures Words(s + w) == Words(s) + [w]
  {
    var before, c := w[..|w| - 1], w[|w| - 1];
    assert w == before + [c] && c in w;
    if before == "" {
      assert w == [c];
      StartWord(s, c);
    } else {
      WordsAppend(s, before);
      EndsInWord(s, before);
      Regroup(s, before, [c]);
      GrowWord(s + before, Words(s), before, c, s + w, w);
    }
  }

  lemma Regroup(a: string, b: string, c: string)
    ensures a + (b + c) == a + b + c
  {
  }

  lemma StartWord(s: string, c: char)
    requires !InWord(s) && IsPlain(c)
    ensures Words(s + [c]) == Words(s) + [[c]]
  {
    WordsGrow(s, c);
  }

  lemma GrowWord(s: string, ws: seq<string>, w: string, c: char, s': string, w': string)
    requires InWord(s) && Words(s) == ws + [w] && IsPlain(c)
    requires s' == s + [c] && w' == w + [c]
    ensures Words(s') == ws + [w']
  {
    WordsGrow(s, c);
    assert (ws + [w])[..|ws|] == ws;
  }

  lemma EndsInWord(s: string, w: string)
    requires w != "" && forall c | c in w :: IsPlain(c)
    ensures InWord(s + w)
  {
    assert w[|w| - 1] in w;
  }

  lemma WordsAppendHyphen(s: string)
    ensures Words(s + "-") == Words(s) && !InWord(s + "-")
  {
    assert (s + "-")[..|s + "-"| - 1] == s;
  }

  /** The words of a slug are the words it was made of. */
  lemma {:induction false} WordsOfHyphenated(ws: seq<string>)
    requires forall w | w in ws :: IsWord(w)
    ensures Words(Hyphenated(ws)) == ws
  {
    if ws == [] {
    } else {
      var init, w := ws[..|ws| - 1], ws[|ws| - 1];
      WordsOfHyphenated(init);
      assert w in ws && ws == init + [w];
      if init == [] {
        WordsAppend("", w);
        assert "" + w == w;
      } else {
        WordsAppendHyphen(Hyphenated(init));
        WordsAppend(Hyphenated(init) + "-", w);
      }
    }
  }

  /**
   Two names have the same slug exactly if they have the same words: what is lost is
   the case of letters and which other characters stand between and around the words.
   */
  lemma SameSlugIffSameWords(a: string, b: string)
    ensures Slug(a) == Slug(b) <==> Words(a) == Words(b)
  {
    WordsAreWords(a);
    WordsAreWords(b);
    WordsOfHyphenated(Words(a));
    WordsOfHyphenated(Words(b));
  }

  // What has been built is the text itself, as long as the text could begin a slug.
  lemma {:induction false} BuiltIsSame(s: string)
    requires forall c | c in s :: IsPlain(c) || c == '-'
    requires s != "" ==> s[0] != '-'
    requires forall i | 0 <= i < |s| - 1 :: s[i] != '-' || s[i + 1] != '-'
    ensures Built(s) == s
  {
    if s == "" {
    } else {
      BuiltIsSame(s[..|s| - 1]);
      AddToSame(s[..|s| - 1], s[|s| - 1]);
      assert s == s[..|s| - 1] + [s[|s| - 1]];
    }
  }

  lemma AddToSame(s: string, c: char)
    requires Built(s) == s && (IsPlain(c) || c == '-')
    requires forall x | x in s :: IsPlain(x) || x == '-'
    requires c == '-' ==> s != "" && s[|s| - 1] != '-'
    ensures Built(s + [c]) == s + [c]
  {
    if IsPlain(c) {
      BuiltLetter(s, c);
    } else {
      assert s[|s| - 1] in s;
      BuiltOther(s, c);
    }
  }

  /** The slugs are exactly the texts that the function leaves alone, so it is idempotent. */
  lemma SlugFixedPoints(s: string)
    ensures IsSlug(s) <==> Slug(s) == s
    ensures Slug(Slug(s)) == Slug(s)
  {
    if IsSlug(s) {
      SlugIsFixed(s);
    }
    SlugIsSlug(s);
    SlugIsFixed(Slug(s));
  }

  lemma SlugIsFixed(s: string)
    requires IsSlug(s)
    ensures Slug(s) == s
  {
    BuiltIsSame(s);
    if s != "" {
      assert s[|s| - 1] in s && s[0] in s;
      assert InWord(s);
    }
  }

  // -------- what a slug keeps --------

  const UPPER := "ABCDEFGHIJKLMNOPQRSTUVWXYZ"
  const LOWER := "abcdefghijklmnopqrstuvwxyz"
  const NUMERALS := "0123456789"

  // Letter by letter of the alphabet; lower-case letters and digits stay.
  predicate LowersTo(c: char, d: char) {
    || (exists k :: 0 <= k < 26 && UPPER[k] == c && LOWER[k] == d)
    || ((c in LOWER || c in NUMERALS) && d == c)
  }

  lemma LetterAt(k: nat)
    requires k < 26
    ensures UPPER[k] as int == 65 + k && LOWER[k] as int == 97 + k
  {
  }

  lemma NumeralAt(k: nat)
    requires k < 10
    ensures NUMERALS[k] as int == 48 + k
  {
  }

  lemma LowerByAlphabet(c: char)
    ensures IsUpper(c) <==> c in UPPER
    ensures IsPlain(c) <==> c in LOWER || c in NUMERALS
    ensures IsAlnum(c) ==> LowersTo(c, Lower(c))
  {
    var n := c as int;
    if IsUpper(c) {
      LetterAt(n - 65);
    } else if 'a' <= c <= 'z' {
      LetterAt(n - 97);
    } else if '0' <= c <= '9' {
      NumeralAt(n - 48);
    }
    forall k | 0 <= k < 26
      ensures UPPER[k] as int == 65 + k && LOWER[k] as int == 97 + k
    {
      LetterAt(k);
    }
    forall k | 0 <= k < 10
      ensures NUMERALS[k] as int == 48 + k
    {
      NumeralAt(k);
    }
  }

  // at[t] is the place in the slug of the letter or digit at places[t] of the name.
  predicate Kept(name: string, slug: string, places: seq<nat>, at: seq<nat>, t: nat)
    requires t < |places| == |at|
  {
    places[t] < |name| && at[t] < |slug| && LowersTo(name[places[t]], slug[at[t]])
  }

  // The next one follows at once if it does so in the name, and after one hyphen otherwise.
  predicate NextKept(slug: string, places: seq<nat>, at: seq<nat>, t: nat)
    requires t + 1 < |places| == |at|
  {
    && places[t] < places[t + 1]
    && if places[t + 1] == places[t] + 1 then at[t + 1] == at[t] + 1
       else at[t + 1] == at[t] + 2 && at[t] + 1 < |slug| && slug[at[t] + 1] == '-'
  }

  ghost predicate LetterByLetter(name: string, slug: string, places: seq<nat>, at: seq<nat>) {
    && |places| == |at|
    && (forall i | 0 <= i < |name| && (name[i] in UPPER || name[i] in LOWER || name[i] in NUMERALS) :: i in places)
    && (forall t | 0 <= t < |places| :: Kept(name, slug, places, at, t))
    && (forall t | 0 <= t < |places| - 1 :: NextKept(slug, places, at, t))
    && if places == [] then slug == "" else at[0] == 0 && at[|at| - 1] == |slug| - 1
  }

  lemma OtherSkipped(name: string, c: char, slug: string, places: seq<nat>, at: seq<nat>)
    requires LetterByLetter(name, slug, places, at) && !IsAlnum(c)
    ensures LetterByLetter(name + [c], slug, places, at)
  {
    LowerByAlphabet(c);
    forall t | 0 <= t < |places|
      ensures Kept(name + [c], slug, places, at, t)
    {
      assert Kept(name, slug, places, at, t);
    }
  }

  lemma LetterKept(name: string, c: char, slug: string, hyphen: string, places: seq<nat>, at: seq<nat>)
    requires LetterByLetter(name, slug, places, at) && IsAlnum(c)
    requires hyphen == if places == [] || places[|places| - 1] == |name| - 1 then "" else "-"
    ensures var slug' := slug + hyphen + [Lower(c)];
            LetterByLetter(name + [c], slug', places + [|name|], at + [|slug'| - 1])
  {
    var slug', places', at' := slug + hyphen + [Lower(c)], places + [|name|], at + [|slug| + |hyphen|];
    LowerByAlphabet(c);
    forall t | 0 <= t < |places'|
      ensures Kept(name + [c], slug', places', at', t)
    {
      assert t < |places| ==> Kept(name, slug, places, at, t);
    }
    forall t | 0 <= t < |places'| - 1
      ensures NextKept(slug', places', at', t)
    {
      assert Kept(name, slug, places, at, t);
      assert t < |places| - 1 ==> NextKept(slug, places, at, t);
    }
    forall i | 0 <= i < |name| + 1 && i !in places'
      ensures !((name + [c])[i] in UPPER || (name + [c])[i] in LOWER || (name + [c])[i] in NUMERALS)
    {
      assert i != |name| && i !in places by {
        assert places'[|places|] == |name|;
        assert forall t | 0 <= t < |places| :: places[t] == places'[t];
      }
      assert (name + [c])[i] == name[i];
    }
  }

  // What one more letter or digit does to the slug.
  lemma SlugGrows(name: string, c: char)
    requires IsAlnum(c)
    ensures Slug(name + [c]) == Slug(name) + (if Words(name) == [] || InWord(name) then "" else "-") + [Lower(c)]
  {
    WordsGrow(name, c);
    if InWord(name) {
      GrowLast(Words(name), Lower(c));
      assert Slug(name) + "" == Slug(name);
    } else {
      AddWord(Words(name), [Lower(c)]);
    }
  }

  // Also, the name ends in a word exactly if its last character was kept.
  ghost predicate Spelled(name: string, places: seq<nat>, at: seq<nat>) {
    && LetterByLetter(name, Slug(name), places, at)
    && (InWord(name) <==> places != [] && places[|places| - 1] == |name| - 1)
  }

  lemma SlugAddsLetter(name: string, c: char, places: seq<nat>, at: seq<nat>)
    requires Spelled(name, places, at) && IsAlnum(c)
    ensures Slug(name + [c]) != ""
    ensures Spelled(name + [c], places + [|name|], at + [|Slug(name + [c])| - 1])
  {
    NoWordNoLetter(name, places, at);
    SlugGrows(name, c);
    LetterKept(name, c, Slug(name), if Words(name) == [] || InWord(name) then "" else "-", places, at);
  }

  lemma SlugSkipsOther(name: string, c: char, places: seq<nat>, at: seq<nat>)
    requires Spelled(name, places, at) && !IsAlnum(c)
    ensures Spelled(name + [c], places, at)
  {
    WordsGrow(name, c);
    OtherSkipped(name, c, Slug(name), places, at);
    assert places != [] ==> Kept(name, Slug(name), places, at, |places| - 1);
  }

  lemma {:induction false} SpellOut(name: string) returns (places: seq<nat>, at: seq<nat>)
    ensures Spelled(name, places, at)
  {
    if name == "" {
      places, at := [], [];
    } else {
      var before, c := name[..|name| - 1], name[|name| - 1];
      assert name == before + [c];
      places, at := SpellOut(before);
      if IsAlnum(c) {
        SlugAddsLetter(before, c, places, at);
        places, at := places + [|before|], at + [|Slug(before + [c])| - 1];
      } else {
        SlugSkipsOther(before, c, places, at);
      }
    }
  }

  /**
   No letter or digit is lost, added or moved, capitals become the small letters of the
   alphabet, and there is one hyphen exactly where the name has something in between.
   */
  lemma SlugKeepsLetters(name: string)
    ensures exists places, at :: LetterByLetter(name, Slug(name), places, at)
  {
    var places, at := SpellOut(name);
    assert LetterByLetter(name, Slug(name), places, at);
  }

  lemma NoWordNoLetter(name: string, places: seq<nat>, at: seq<nat>)
    requires LetterByLetter(name, Slug(name), places, at)
    ensures Words(name) == [] <==> places == []
  {
    if Words(name) != [] {
      WordsAreWords(name);
      HyphenatedEnds(Words(name));
    }
  }
}
