/**
Naming a new principal: the slug of a seed, and the first free code made from
it (src/auth_api.rs:86-93, 623-661).
*/
module AuthApi {
  // ---- slugs ------------------------------------------------------------------------

  predicate IsAlnum(c: char) {
    '0' <= c <= '9' || 'A' <= c <= 'Z' || 'a' <= c <= 'z'
  }

  function Lower(c: char): char {
    if 'A' <= c <= 'Z' then (c as int + 32) as char else c
  }

  // The maximal runs of alphanumerics, in lower case.
  function Words(s: string): (ws: seq<string>)
    ensures s != [] && IsAlnum(s[|s| - 1]) ==> ws != []
    decreases |s|
  {
    if s == [] then []
    else
      var init, c := s[..|s| - 1], s[|s| - 1];
      var ws := Words(init);
      if !IsAlnum(c) then ws
      else if init != [] && IsAlnum(init[|init| - 1]) then ws[..|ws| - 1] + [ws[|ws| - 1] + [Lower(c)]]
      else ws + [[Lower(c)]]
  }

  function Join(ws: seq<string>): string
    decreases |ws|
  {
    if ws == [] then ""
    else if |ws| == 1 then ws[0]
    else Join(ws[..|ws| - 1]) + "-" + ws[|ws| - 1]
  }

  // The slug of a text: its words, joined by hyphens.
  function Slug(s: string): string {
    Join(Words(s))
  }

  predicate IsLowerAlnum(c: char) {
    '0' <= c <= '9' || 'a' <= c <= 'z'
  }

  // Lower-case alphanumerics and hyphens, none leading and none doubled.
  predicate Hyphenated(s: string) {
    && (forall i | 0 <= i < |s| :: IsLowerAlnum(s[i]) || (s[i] == '-' && i > 0 && s[i - 1] != '-'))
  }

  predicate IsSlug(s: string) {
    Hyphenated(s) && (s == [] || s[|s| - 1] != '-')
  }

  predicate AreWords(ws: seq<string>) {
    forall i | 0 <= i < |ws| :: ws[i] != [] && forall j | 0 <= j < |ws[i]| :: IsLowerAlnum(ws[i][j])
  }

  lemma {:induction false} WordsAreWords(s: string)
    ensures AreWords(Words(s))
    decreases |s|
  {
    if s != [] {
      var init := s[..|s| - 1];
      WordsAreWords(init);
    }
  }

  lemma {:induction false} JoinIsSlug(ws: seq<string>)
    requires AreWords(ws)
    ensures IsSlug(Join(ws)) && (ws != [] ==> Join(ws) != [])
    decreases |ws|
  {
    if ws != [] {
      if |ws| > 1 {
        JoinIsSlug(ws[..|ws| - 1]);
      }
    }
  }

  // Growing the last word, and adding one.
  lemma JoinGrows(ws: seq<string>, c: char)
    requires ws != []
    ensures Join(ws[..|ws| - 1] + [ws[|ws| - 1] + [c]]) == Join(ws) + [c]
  {
    var grown := ws[..|ws| - 1] + [ws[|ws| - 1] + [c]];
    assert grown[..|grown| - 1] == ws[..|ws| - 1];
  }

  lemma JoinAdds(ws: seq<string>, w: string)
    ensures Join(ws + [w]) == if ws == [] then w else Join(ws) + "-" + w
  {
    assert (ws + [w])[..|ws|] == ws;
  }

  // What the buffer holds after a prefix: a hyphen follows the words if a gap does.
  function Buffer(s: string): string {
    Slug(s) + (if Words(s) != [] && !IsAlnum(s[|s| - 1]) then "-" else "")
  }

  lemma BufferStep(s: string, c: char)
    ensures Buffer(s + [c]) ==
            if IsAlnum(c) then Buffer(s) + [Lower(c)]
            else if Buffer(s) != [] && Buffer(s)[|Buffer(s)| - 1] != '-' then Buffer(s) + ['-']
            else Buffer(s)
  {
    WordsSnoc(s, c);
    SlugEnds(s);
    hide Join, IsAlnum, Lower;
    if IsAlnum(c) {
      if s != [] && IsAlnum(s[|s| - 1]) {
        JoinGrows(Words(s), Lower(c));
      } else {
        JoinAdds(Words(s), [Lower(c)]);
      }
    }
  }

  lemma WordsSnoc(s: string, c: char)
    ensures var ws := Words(s);
            Words(s + [c]) ==
              if !IsAlnum(c) then ws
              else if s != [] && IsAlnum(s[|s| - 1]) then ws[..|ws| - 1] + [ws[|ws| - 1] + [Lower(c)]]
              else ws + [[Lower(c)]]
  {
    hide IsAlnum, Lower;
    assert (s + [c])[..|s|] == s;
  }

  lemma SlugEnds(s: string)
    ensures Words(s) == [] <==> Slug(s) == []
    ensures Slug(s) != [] ==> Slug(s)[|Slug(s)| - 1] != '-'
  {
    WordsAreWords(s);
    JoinIsSlug(Words(s));
  }

  lemma BufferEnds(s: string)
    ensures Buffer("") == ""
    ensures Buffer(s) == Slug(s) || Buffer(s) == Slug(s) + "-"
    ensures Slug(s) != [] ==> Slug(s)[|Slug(s)| - 1] != '-'
  {
    SlugEnds(s);
  }

  /** The slug of any text, character by character. */
  method Slugify(input: string) returns (out: string)
    ensures out == Slug(input)
  {
    hide Buffer, Slug, Words, Join;
    BufferEnds(input);
    out := "";
    var n := 0;
    while n < |input|
      invariant 0 <= n <= |input| && out == Buffer(input[..n])
    {
      var c := input[n];
      BufferStep(input[..n], c);
      assert input[..n + 1] == input[..n] + [c];
      if IsAlnum(c) {
        out := out + [Lower(c)];
      } else if out != [] && out[|out| - 1] != '-' {
        out := out + ['-'];
      }
      n := n + 1;
    }
    assert input[..n] == input;
    while out != [] && out[|out| - 1] == '-'
      invariant out == Buffer(input) || out == Slug(input)
      decreases |out|
    {
      out := out[..|out| - 1];
    }
  }

  lemma {:induction false} HyphenatedIsItsBuffer(s: string)
    requires Hyphenated(s)
    ensures Buffer(s) == s
    decreases |s|
  {
    if s != [] {
      var init, c := s[..|s| - 1], s[|s| - 1];
      HyphenatedIsItsBuffer(init);
      assert s == init + [c];
      BufferStep(init, c);
    }
  }

  /** A slug is lower-case alphanumeric runs joined by single hyphens; a text is its
      own slug exactly when it has that form; and slugging again changes nothing. */
  lemma SlugForm(s: string)
    ensures IsSlug(Slug(s)) && Slug(Slug(s)) == Slug(s)
    ensures Slug(s) == s <==> IsSlug(s)
  {
    WordsAreWords(s);
    JoinIsSlug(Words(s));
    OwnSlug(Slug(s));
    if IsSlug(s) {
      OwnSlug(s);
    }
  }

  lemma OwnSlug(s: string)
    requires IsSlug(s)
    ensures Slug(s) == s
  {
    HyphenatedIsItsBuffer(s);
    SlugEnds(s);
  }

  // ---- a slug, word by word ----------------------------------------------------------

  predicate LetterOrDigit(c: char) {
    IsLowerAlnum(c) || 'A' <= c <= 'Z'
  }

  predicate IsWord(w: string) {
    w != "" && forall i | 0 <= i < |w| :: LetterOrDigit(w[i])
  }

  predicate Separates(sep: string) {
    forall i | 0 <= i < |sep| :: !LetterOrDigit(sep[i])
  }

  // Capitals become the small letters at the same place of the alphabet.
  predicate InLowerCase(w: string, u: string) {
    |u| == |w| && forall i | 0 <= i < |w| ::
      if 'A' <= w[i] <= 'Z' then u[i] as int - 'a' as int == w[i] as int - 'A' as int else u[i] == w[i]
  }

  lemma {:induction false} SeparatorAdded(s: string, sep: string)
    requires Separates(sep)
    ensures Words(s + sep) == Words(s)
    decreases |sep|
  {
    if sep == "" {
      assert s + sep == s;
    } else {
      SeparatorAdded(s, sep[..|sep| - 1]);
      assert (s + sep)[..|s + sep| - 1] == s + sep[..|sep| - 1];
    }
  }

  // One more letter, of a new word or of the word the text ends in.
  lemma LetterAdded(s: string, c: char)
    requires LetterOrDigit(c)
    ensures var ws := Words(s);
            Words(s + [c]) == if s == "" || !LetterOrDigit(s[|s| - 1]) then ws + [[Lower(c)]]
                              else ws[..|ws| - 1] + [ws[|ws| - 1] + [Lower(c)]]
  {
    assert (s + [c])[..|s|] == s;
  }

  lemma {:induction false} WordAdded(s: string, w: string) returns (u: string)
    requires IsWord(w) && (s == "" || !LetterOrDigit(s[|s| - 1]))
    ensures InLowerCase(w, u) && Words(s + w) == Words(s) + [u]
    decreases |w|
  {
    hide Words;
    var init, c := w[..|w| - 1], w[|w| - 1];
    assert s + w == s + init + [c];
    LetterAdded(s + init, c);
    if init == "" {
      assert s + init == s;
      u := [Lower(c)];
    } else {
      var v := WordAdded(s, init);
      u := v + [Lower(c)];
    }
  }

  /** A slug is made word by word: a word after separators adds a hyphen, if anything
      comes before it, and itself in lower case; separators at an end add nothing. */
  lemma SlugGrows(s: string, sep: string, w: string) returns (u: string)
    requires Separates(sep) && IsWord(w) && (s == "" || sep != "")
    ensures InLowerCase(w, u)
    ensures Slug(s + sep) == Slug(s)
    ensures Slug(s + sep + w) == (if Slug(s) == "" then u else Slug(s) + "-" + u)
  {
    SeparatorAdded(s, sep);
    u := WordAdded(s + sep, w);
    SlugEnds(s);
    var ws := Words(s);
    assert (ws + [u])[..|ws + [u]| - 1] == ws;
  }

  // ---- decimal suffixes ---------------------------------------------------------------

  function Digit(n: nat): char
    requires n < 10
  {
    (n + 48) as char
  }

  function Decimal(n: nat): (s: string)
    ensures s != []
  {
    if n < 10 then [Digit(n)] else Decimal(n / 10) + [Digit(n % 10)]
  }

  lemma {:induction false} DecimalIsInjective(m: nat, n: nat)
    requires Decimal(m) == Decimal(n)
    ensures m == n
    decreases m
  {
    var a, b := Decimal(m), Decimal(n);
    assert a[|a| - 1] == b[|b| - 1];
    assert m % 10 == n % 10;
    if m >= 10 && n >= 10 {
      assert a[..|a| - 1] == Decimal(m / 10) && b[..|b| - 1] == Decimal(n / 10);
      DecimalIsInjective(m / 10, n / 10);
    }
  }

  // ---- the first free code ---------------------------------------------------------------

  const U32_MAX: nat := 0xFFFF_FFFF

  // base, base-2, base-3, ...
  function Candidate(base: string, k: nat): string {
    if k <= 1 then base else base + "-" + Decimal(k)
  }

  lemma CandidatesDiffer(base: string, j: nat, k: nat)
    requires 1 <= j < k
    ensures Candidate(base, j) != Candidate(base, k)
  {
    var c := base + "-" + Decimal(k);
    assert |c| > |base|;
    if j > 1 && Candidate(base, j) == c {
      assert Candidate(base, j)[|base| + 1..] == Decimal(j) && c[|base| + 1..] == Decimal(k);
      DecimalIsInjective(j, k);
    }
  }

  // With the first k candidates all taken, k codes are.
  lemma {:induction false} TakenCandidates(taken: set<string>, base: string, k: nat)
    requires forall j | 1 <= j <= k :: Candidate(base, j) in taken
    ensures k <= |taken|
    decreases k
  {
    if k > 0 {
      var last := Candidate(base, k);
      assert last in taken;
      forall j | 1 <= j <= k - 1 ensures Candidate(base, j) in taken - {last} {
        CandidatesDiffer(base, j, k);
      }
      TakenCandidates(taken - {last}, base, k - 1);
    }
  }

  function Base(seed: string): string {
    if Slug(seed) == "" then "principal" else Slug(seed)
  }

  /** Ends for every set of taken codes, within one probe more than there are, at
      the first free code of base, base-2, base-3, ... The suffix has no room to
      overflow while fewer codes are taken than it can count. */
  method GenerateUniqueCode(taken: set<string>, seed: string) returns (code: string, ghost probes: nat)
    requires |taken| < U32_MAX
    ensures code !in taken
    ensures 1 <= probes <= |taken| + 1 && code == Candidate(Base(seed), probes)
    ensures forall j | 1 <= j < probes :: Candidate(Base(seed), j) in taken
  {
    var base := Slugify(seed);
    if base == "" {
      base := "principal";
    }
    code := base;
    var suffix := 1;
    while code in taken
      invariant 1 <= suffix <= |taken| + 1 && code == Candidate(base, suffix)
      invariant forall j | 1 <= j < suffix :: Candidate(base, j) in taken
      decreases |taken| + 1 - suffix
    {
      TakenCandidates(taken, base, suffix);
      assert suffix + 1 <= U32_MAX;
      suffix := suffix + 1;
      code := base + "-" + Decimal(suffix);
    }
    probes := suffix;
  }
}
