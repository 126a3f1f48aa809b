/** `redactSecrets`: leftmost replacement of the pattern
    (PASSWORD\s+|IDENTIFIED\s+BY\s+)'(?:[^'\\]|\\.)*'
    matched without regard to case and with `.` matching a newline.

    The pattern is given twice: as a scanner, which is how the replacement proceeds, and as a
    language of matching texts. The scanner is proved to recognise exactly that language. */
module Redact {
  import opened Basics

  const PLACEHOLDER_BODY := "***REDACTED***"
  const PLACEHOLDER := "'" + PLACEHOLDER_BODY + "'"

  /** `\s` of the regexp library: ASCII only, and without the vertical tab. */
  predicate IsSpace(c: char) {
    c == '\t' || c == '\n' || c == '\U{000C}' || c == '\r' || c == ' '
  }

  /** Case folding of the pattern's letters; the long s folds to S. */
  predicate Folds(c: char, upper: char) {
    || c == upper
    || ('A' <= upper <= 'Z' && 'a' <= c <= 'z' && c as int - 'a' as int == upper as int - 'A' as int)
    || (upper == 'S' && c == '\U{017F}')
  }

  predicate WordAt(s: string, k: nat, word: string) {
    k + |word| <= |s| && forall i | 0 <= i < |word| :: Folds(s[k + i], word[i])
  }

  // ---------------------------------------------------------------- the scanner

  /** Where the run of white space from `k` ends. */
  function SpaceEnd(s: string, k: nat): (n: nat)
    requires k <= |s|
    ensures k <= n <= |s| && (forall i | k <= i < n :: IsSpace(s[i])) && (n < |s| ==> !IsSpace(s[n]))
    decreases |s| - k
  {
    if k < |s| && IsSpace(s[k]) then SpaceEnd(s, k + 1) else k
  }

  /** From `k`, white space and then the opening quote: where the quote is. */
  function QuoteAfterSpace(s: string, k: nat): Option<nat>
    requires k <= |s|
  {
    var b := SpaceEnd(s, k);
    if k < b < |s| && s[b] == '\'' then Some(b) else None
  }

  /** Length of the first capture group, if `s` starts with it and a quote follows. */
  function Lead(s: string): Option<nat>
  {
    if WordAt(s, 0, "PASSWORD") then QuoteAfterSpace(s, 8)
    else if WordAt(s, 0, "IDENTIFIED") then
      var a := SpaceEnd(s, 10);
      if 10 < a && WordAt(s, a, "BY") then QuoteAfterSpace(s, a + 2) else None
    else None
  }

  /** Length up to and including the closing quote, `s` being the text after the opening one. */
  function CloseLen(s: string): Option<nat>
  {
    if s == "" then None
    else if s[0] == '\'' then Some(1)
    else
      var unit := if s[0] == '\\' then 2 else 1;
      if |s| < unit then None
      else
        var rest := CloseLen(s[unit..]);
        if rest.None? then None else Some(rest.value + unit)
  }

  /** A match at the start of a text: the length of the first group and of the whole match. */
  datatype Span = Span(lead: nat, len: nat)

  function MatchAtStart(s: string): Option<Span>
  {
    var lead := Lead(s);
    if lead.None? then None
    else
      var close := CloseLen(s[lead.value + 1..]);
      if close.None? then None else Some(Span(lead.value, lead.value + 1 + close.value))
  }

  lemma {:induction false} CloseInRange(s: string)
    requires CloseLen(s).Some?
    ensures 0 < CloseLen(s).value <= |s|
  {
    if s[0] != '\'' {
      CloseInRange(s[if s[0] == '\\' then 2 else 1..]);
    }
  }

  lemma MatchInRange(s: string)
    requires MatchAtStart(s).Some?
    ensures 0 < MatchAtStart(s).value.lead < MatchAtStart(s).value.len <= |s|
    ensures s[MatchAtStart(s).value.lead] == '\''
  {
    CloseInRange(s[Lead(s).value + 1..]);
  }

  function RedactSecrets(query: string): string
  {
    if query == "" then ""
    else
      var m := MatchAtStart(query);
      if m.Some? then
        MatchInRange(query);
        query[..m.value.lead] + PLACEHOLDER + RedactSecrets(query[m.value.len..])
      else [query[0]] + RedactSecrets(query[1..])
  }

  // ---------------------------------------------------------------- the pattern as a language

  ghost predicate SpacesIn(w: string, lo: nat, hi: nat) {
    lo < hi <= |w| && forall i | lo <= i < hi :: IsSpace(w[i])
  }

  /** The first capture group. */
  ghost predicate IsLead(w: string) {
    || (WordAt(w, 0, "PASSWORD") && SpacesIn(w, 8, |w|))
    || (WordAt(w, 0, "IDENTIFIED") &&
        exists j: nat :: SpacesIn(w, 10, j) && WordAt(w, j, "BY") && SpacesIn(w, j + 2, |w|))
  }

  /** A sequence of units, each a character other than quote and backslash, or a backslash
      with any one character. */
  ghost predicate IsBody(b: string) {
    || b == ""
    || (b[0] != '\'' && b[0] != '\\' && IsBody(b[1..]))
    || (b[0] == '\\' && |b| >= 2 && IsBody(b[2..]))
  }

  /** `m` as a whole matches the pattern, its first group being the first `g` characters. */
  ghost predicate IsMatch(m: string, g: nat) {
    && g + 2 <= |m|
    && IsLead(m[..g])
    && m[g] == '\'' && m[|m|-1] == '\''
    && IsBody(m[g + 1..|m|-1])
  }

  lemma {:induction false} CloseFindsBody(s: string)
    requires CloseLen(s).Some?
    ensures 0 < CloseLen(s).value <= |s|
    ensures s[CloseLen(s).value - 1] == '\'' && IsBody(s[..CloseLen(s).value - 1])
  {
    if s[0] != '\'' {
      var unit := if s[0] == '\\' then 2 else 1;
      CloseFindsBody(s[unit..]);
      var n := CloseLen(s).value - 1;
      assert s[..n][unit..] == s[unit..][..n - unit];
    }
  }

  lemma {:induction false} BodyIsFound(s: string, n: nat)
    requires n < |s| && s[n] == '\'' && IsBody(s[..n])
    ensures CloseLen(s) == Some(n + 1)
  {
    if n > 0 {
      var unit := if s[0] == '\\' then 2 else 1;
      assert s[..n][0] == s[0];
      assert s[..n][unit..] == s[unit..][..n - unit];
      BodyIsFound(s[unit..], n - unit);
    }
  }

  lemma SpaceEndIs(s: string, k: nat, n: nat)
    requires k <= n < |s| && (forall i | k <= i < n :: IsSpace(s[i])) && !IsSpace(s[n])
    ensures SpaceEnd(s, k) == n
  {
  }

  lemma LeadFound(s: string)
    requires Lead(s).Some?
    ensures Lead(s).value < |s| && s[Lead(s).value] == '\'' && IsLead(s[..Lead(s).value])
  {
    if !WordAt(s, 0, "PASSWORD") {
      var a, w := SpaceEnd(s, 10), s[..Lead(s).value];
      assert SpacesIn(w, 10, a) && WordAt(w, a, "BY") && SpacesIn(w, a + 2, |w|);
    }
  }

  lemma PasswordLeadIsFound(s: string, g: nat)
    requires g < |s| && s[g] == '\'' && WordAt(s[..g], 0, "PASSWORD") && SpacesIn(s[..g], 8, g)
    ensures Lead(s) == Some(g)
  {
    assert forall i | 8 <= i < g :: s[i] == s[..g][i];
    assert WordAt(s, 0, "PASSWORD");
    SpaceEndIs(s, 8, g);
  }

  lemma IdentifiedLeadIsFound(s: string, g: nat, j: nat)
    requires g < |s| && s[g] == '\'' && WordAt(s[..g], 0, "IDENTIFIED")
    requires SpacesIn(s[..g], 10, j) && WordAt(s[..g], j, "BY") && SpacesIn(s[..g], j + 2, g)
    ensures Lead(s) == Some(g)
  {
    assert forall i | 0 <= i < g :: s[i] == s[..g][i];
    assert Folds(s[0], "IDENTIFIED"[0]) && !Folds(s[0], "PASSWORD"[0]);
    assert Folds(s[j], "BY"[0]);
    SpaceEndIs(s, 10, j);
    assert WordAt(s, j, "BY");
    SpaceEndIs(s, j + 2, g);
  }

  lemma LeadIsFound(s: string, g: nat)
    requires g < |s| && s[g] == '\'' && IsLead(s[..g])
    ensures Lead(s) == Some(g)
  {
    if WordAt(s[..g], 0, "PASSWORD") && SpacesIn(s[..g], 8, g) {
      PasswordLeadIsFound(s, g);
    } else {
      var j: nat :| SpacesIn(s[..g], 10, j) && WordAt(s[..g], j, "BY") && SpacesIn(s[..g], j + 2, g);
      IdentifiedLeadIsFound(s, g, j);
    }
  }

  lemma ScannedIsMatch(s: string, g: nat, n: nat)
    requires MatchAtStart(s) == Some(Span(g, n))
    ensures n <= |s| && IsMatch(s[..n], g)
  {
    LeadFound(s);
    CloseFindsBody(s[g + 1..]);
    assert s[..n][..g] == s[..g];
    assert s[..n][g + 1..n - 1] == s[g + 1..][..n - g - 2];
  }

  lemma MatchIsScanned(s: string, g: nat, n: nat)
    requires n <= |s| && IsMatch(s[..n], g)
    ensures MatchAtStart(s) == Some(Span(g, n))
  {
    assert s[..n][..g] == s[..g];
    LeadIsFound(s, g);
    assert s[..n][g + 1..n - 1] == s[g + 1..][..n - g - 2];
    BodyIsFound(s[g + 1..], n - g - 2);
  }

  /** The scanner recognises the pattern exactly, and a text has at most one matching prefix. */
  lemma ScannerIsPattern(s: string, g: nat, n: nat)
    ensures MatchAtStart(s) == Some(Span(g, n)) <==> n <= |s| && IsMatch(s[..n], g)
  {
    if MatchAtStart(s) == Some(Span(g, n)) {
      ScannedIsMatch(s, g, n);
    } else if n <= |s| && IsMatch(s[..n], g) {
      MatchIsScanned(s, g, n);
    }
  }

  // ---------------------------------------------------------------- what replacement means

  /** A query cut up: single characters that are kept, and matches of the pattern. */
  datatype Piece = Kept(c: char) | Secret(lead: string, literal: string)

  ghost function Source(ps: seq<Piece>): string {
    if ps == [] then ""
    else (match ps[0] case Kept(c) => [c] case Secret(l, t) => l + t) + Source(ps[1..])
  }

  ghost function Shown(ps: seq<Piece>): string {
    if ps == [] then ""
    else (match ps[0] case Kept(c) => [c] case Secret(l, _) => l + PLACEHOLDER) + Shown(ps[1..])
  }

  /** No match of the pattern starts at the front. */
  ghost predicate NoneStarts(s: string) {
    forall g, n | 0 <= n <= |s| :: !IsMatch(s[..n], g)
  }

  /** Leftmost and non-overlapping: every secret is a match of the pattern, and no match of the
      pattern starts at a character that is kept. */
  ghost predicate Leftmost(ps: seq<Piece>) {
    ps != [] ==>
      && Leftmost(ps[1..])
      && match ps[0]
         case Secret(l, t) => IsMatch(l + t, |l|)
         case Kept(_) => NoneStarts(Source(ps))
  }

  ghost function Cut(s: string): seq<Piece>
  {
    if s == "" then []
    else
      var m := MatchAtStart(s);
      if m.Some? then
        MatchInRange(s);
        [Secret(s[..m.value.lead], s[m.value.lead..m.value.len])] + Cut(s[m.value.len..])
      else [Kept(s[0])] + Cut(s[1..])
  }

  /** Everything outside the matches is kept verbatim and in order: the query is a leftmost
      cutting into kept characters and matches, and only the matches' literals are replaced. */
  lemma {:induction false} RedactKeepsTheRest(s: string)
    ensures Source(Cut(s)) == s
    ensures Leftmost(Cut(s))
    ensures RedactSecrets(s) == Shown(Cut(s))
  {
    if s != "" {
      var m := MatchAtStart(s);
      if m.Some? {
        MatchInRange(s);
        RedactKeepsTheRest(s[m.value.len..]);
        CutMatch(s, m.value.lead, m.value.len);
      } else {
        RedactKeepsTheRest(s[1..]);
        assert Cut(s)[1..] == Cut(s[1..]);
        NoMatchNoPattern(s);
      }
    }
  }

  lemma CutMatch(s: string, g: nat, n: nat)
    requires MatchAtStart(s) == Some(Span(g, n)) && g < n <= |s|
    requires Source(Cut(s[n..])) == s[n..] && Leftmost(Cut(s[n..]))
    ensures Source(Cut(s)) == s && Leftmost(Cut(s))
    ensures Shown(Cut(s)) == s[..g] + PLACEHOLDER + Shown(Cut(s[n..]))
  {
    CutStep(s, g, n);
    ScannerIsPattern(s, g, n);
    SplitMatch(s, g, n);
    PushSecret(s[..g], s[g..n], Cut(s[n..]));
  }

  lemma CutStep(s: string, g: nat, n: nat)
    requires MatchAtStart(s) == Some(Span(g, n)) && g < n <= |s|
    ensures Cut(s) == [Secret(s[..g], s[g..n])] + Cut(s[n..])
  {
  }

  lemma SplitMatch(s: string, g: nat, n: nat)
    requires g < n <= |s|
    ensures s[..g] + s[g..n] == s[..n] && s[..n] + s[n..] == s
  {
  }

  lemma PushSecret(lead: string, literal: string, rest: seq<Piece>)
    requires IsMatch(lead + literal, |lead|) && Leftmost(rest)
    ensures Leftmost([Secret(lead, literal)] + rest)
    ensures Source([Secret(lead, literal)] + rest) == lead + literal + Source(rest)
    ensures Shown([Secret(lead, literal)] + rest) == lead + PLACEHOLDER + Shown(rest)
  {
    assert ([Secret(lead, literal)] + rest)[1..] == rest;
  }

  lemma NoMatchNoPattern(s: string)
    requires MatchAtStart(s).None?
    ensures NoneStarts(s)
  {
    forall g, n | 0 <= n <= |s| ensures !IsMatch(s[..n], g) {
      ScannerIsPattern(s, g, n);
    }
  }

  lemma PatternFreeNoMatch(s: string)
    requires NoneStarts(s)
    ensures MatchAtStart(s).None?
  {
    if MatchAtStart(s).Some? {
      var m := MatchAtStart(s).value;
      MatchInRange(s);
      ScannerIsPattern(s, m.lead, m.len);
    }
  }

  lemma SecretIsCut(l: string, t: string, rest: string)
    requires IsMatch(l + t, |l|)
    ensures Cut(l + t + rest) == [Secret(l, t)] + Cut(rest)
  {
    var s := l + t + rest;
    assert s[..|l + t|] == l + t;
    ScannerIsPattern(s, |l|, |l + t|);
    assert s[..|l|] == l && s[|l|..|l + t|] == t && s[|l + t|..] == rest;
  }

  lemma KeptIsCut(c: char, rest: string)
    requires NoneStarts([c] + rest)
    ensures Cut([c] + rest) == [Kept(c)] + Cut(rest)
  {
    PatternFreeNoMatch([c] + rest);
    assert ([c] + rest)[1..] == rest;
  }

  /** There is only one such cutting, so the replacement is determined by the pattern alone. */
  lemma {:induction false} LeftmostIsUnique(ps: seq<Piece>)
    requires Leftmost(ps)
    ensures Cut(Source(ps)) == ps
  {
    if ps != [] {
      var first, s, rest := ps[0], Source(ps), Source(ps[1..]);
      LeftmostIsUnique(ps[1..]);
      match first
      case Secret(l, t) =>
        SecretIsCut(l, t, rest);
        assert s == l + t + rest;
      case Kept(c) =>
        assert s == [c] + rest;
        KeptIsCut(c, rest);
    }
  }

  // ---------------------------------------------------------------- nothing is left to redact

  lemma LeadDependsOnPrefix(s: string, t: string, g: nat)
    requires Lead(s) == Some(g) && g < |t| && g < |s| && s[..g + 1] == t[..g + 1]
    ensures Lead(t) == Some(g)
  {
    LeadFound(s);
    assert t[..g] == t[..g + 1][..g] == s[..g + 1][..g] == s[..g];
    assert t[g] == t[..g + 1][g] == s[..g + 1][g] == s[g];
    LeadIsFound(t, g);
  }

  lemma LeadStart(s: string)
    requires Lead(s).Some?
    ensures |s| > 1 && (Folds(s[0], 'P') || (Folds(s[0], 'I') && Folds(s[1], 'D')))
  {
    if WordAt(s, 0, "PASSWORD") {
      assert Folds(s[0 + 0], "PASSWORD"[0]);
    } else {
      assert Folds(s[0 + 0], "IDENTIFIED"[0]) && Folds(s[0 + 1], "IDENTIFIED"[1]);
    }
  }

  lemma LeadStartAt(s: string, k: nat)
    requires k <= |s| && Lead(s[k..]).Some?
    ensures k + 1 < |s| && (Folds(s[k], 'P') || (Folds(s[k], 'I') && Folds(s[k + 1], 'D')))
  {
    LeadStart(s[k..]);
  }

  /** Inside a first group no character but the first can start a match, and none is a quote. */
  lemma LeadInterior(s: string, k: nat)
    requires Lead(s).Some? && k < Lead(s).value < |s|
    ensures s[k] != '\''
    ensures k > 0 ==> Lead(s[k..]).None?
  {
    if WordAt(s, 0, "PASSWORD") {
      assert k < 8 ==> Folds(s[0 + k], "PASSWORD"[k]);
    } else {
      IdentifiedLetters(s, k);
    }
    if k > 0 && Lead(s[k..]).Some? {
      LeadStartAt(s, k);
    }
  }

  lemma IdentifiedLetters(s: string, k: nat)
    requires WordAt(s, 0, "IDENTIFIED") && !WordAt(s, 0, "PASSWORD")
    requires Lead(s).Some? && k < Lead(s).value < |s|
    ensures s[k] != '\''
    ensures k > 0 ==> !Folds(s[k], 'P') && !(Folds(s[k], 'I') && Folds(s[k + 1], 'D'))
  {
    var a := SpaceEnd(s, 10);
    if k < 10 {
      assert Folds(s[0 + k], "IDENTIFIED"[k]);
      if k < 9 {
        assert Folds(s[0 + (k + 1)], "IDENTIFIED"[k + 1]);
      }
    } else if a <= k < a + 2 {
      assert Folds(s[a + (k - a)], "BY"[k - a]);
    }
  }

  /** In a text that is never closed, every quote is escaped. */
  lemma {:induction false} UnclosedQuotesAreEscaped(u: string, x: nat)
    requires CloseLen(u).None? && x < |u| && u[x] == '\''
    ensures x > 0 && u[x - 1] == '\\'
  {
    if u[0] == '\\' {
      if x > 1 {
        UnclosedQuotesAreEscaped(u[2..], x - 2);
      }
    } else {
      UnclosedQuotesAreEscaped(u[1..], x - 1);
    }
  }

  /** A literal that is never closed hides no match: the quote that opens one follows white
      space, so it would have closed the literal. */
  lemma UnclosedHidesNoMatch(u: string, k: nat)
    requires CloseLen(u).None? && k <= |u|
    ensures Lead(u[k..]).None?
  {
    if Lead(u[k..]).Some? {
      var t := u[k..];
      var g := Lead(t).value;
      QuoteFollowsSpace(t);
      UnclosedQuotesAreEscaped(u, k + g);
    }
  }

  lemma QuoteFollowsSpace(t: string)
    requires Lead(t).Some?
    ensures 0 < Lead(t).value < |t| && t[Lead(t).value] == '\'' && IsSpace(t[Lead(t).value - 1])
  {
  }

  lemma {:induction false} NoMatchesNoChange(s: string)
    requires forall k | 0 <= k <= |s| :: MatchAtStart(s[k..]).None?
    ensures RedactSecrets(s) == s
  {
    if s != "" {
      assert s[0..] == s;
      forall k | 0 <= k <= |s[1..]| ensures MatchAtStart(s[1..][k..]).None? {
        assert s[1..][k..] == s[k + 1..];
      }
      NoMatchesNoChange(s[1..]);
      assert [s[0]] + s[1..] == s;
    }
  }

  lemma SameBehindFirst(c: char, tail: string, r: string, g: nat)
    requires 0 < g <= |tail| && g <= |r| && tail[..g] == r[..g]
    ensures ([c] + tail)[..g + 1] == ([c] + r)[..g + 1]
  {
    assert ([c] + tail)[..g + 1] == [c] + tail[..g];
    assert ([c] + r)[..g + 1] == [c] + r[..g];
  }

  lemma SameUpToPlaceholder(s: string, q: nat)
    requires MatchAtStart(s).Some?
    requires q < |RedactSecrets(s)| && RedactSecrets(s)[q] == '\''
    requires forall i | 0 <= i < q :: RedactSecrets(s)[i] != '\''
    ensures q < |s| && s[..q + 1] == RedactSecrets(s)[..q + 1]
  {
    var t := RedactSecrets(s);
    MatchInRange(s);
    var g := MatchAtStart(s).value.lead;
    assert t[g] == PLACEHOLDER[0];
    forall i | 0 <= i < g ensures t[i] == s[i] != '\'' { LeadInterior(s, i); }
  }

  /** Up to its first quote, the redacted text is the text. */
  lemma {:induction false} SameUpToFirstQuote(s: string, q: nat)
    requires q < |RedactSecrets(s)| && RedactSecrets(s)[q] == '\''
    requires forall i | 0 <= i < q :: RedactSecrets(s)[i] != '\''
    ensures q < |s| && s[..q + 1] == RedactSecrets(s)[..q + 1]
  {
    var t := RedactSecrets(s);
    if MatchAtStart(s).Some? {
      SameUpToPlaceholder(s, q);
    } else if q > 0 {
      var tail, r := s[1..], RedactSecrets(s[1..]);
      assert t == [s[0]] + r;
      assert forall i | 0 <= i < q :: r[i] == t[i + 1];
      SameUpToFirstQuote(tail, q - 1);
      SameBehindFirst(s[0], tail, r, q);
      assert s == [s[0]] + tail;
    }
  }

  lemma NoMatchFrom(s: string, g: nat, k: nat)
    requires Lead(s) == Some(g) && g < |s| && CloseLen(s[g + 1..]).None? && 0 < k <= |s|
    ensures MatchAtStart(s[k..]).None?
  {
    if k < g {
      LeadInterior(s, k);
    } else if k == g {
      LeadFound(s);
      if Lead(s[k..]).Some? {
        LeadStartAt(s, k);
      }
    } else {
      assert s[g + 1..][k - g - 1..] == s[k..];
      UnclosedHidesNoMatch(s[g + 1..], k - g - 1);
    }
  }

  /** The first quote is the one behind the group. */
  lemma FirstQuoteBehindLead(c: char, r: string, g: nat)
    requires Lead([c] + r) == Some(g)
    ensures 0 < g <= |r| && r[g - 1] == '\'' && forall i | 0 <= i < g - 1 :: r[i] != '\''
  {
    var t := [c] + r;
    QuoteFollowsSpace(t);
    forall i | 0 <= i < g - 1 ensures r[i] != '\'' {
      LeadInterior(t, i + 1);
      assert t[i + 1] == r[i];
    }
  }

  /** A first group that starts the redacted text starts the text itself. */
  lemma LeadIsOld(s: string, t: string)
    requires s != "" && t == [s[0]] + RedactSecrets(s[1..]) && Lead(t).Some?
    ensures Lead(s) == Lead(t) && Lead(t).value < |s|
  {
    var tail, r, g := s[1..], RedactSecrets(s[1..]), Lead(t).value;
    FirstQuoteBehindLead(s[0], r, g);
    SameUpToFirstQuote(tail, g - 1);
    SameBehindFirst(s[0], tail, r, g);
    assert s == [s[0]] + tail;
    LeadDependsOnPrefix(t, s, g);
  }

  lemma NoMatchesBehind(s: string, g: nat)
    requires Lead(s) == Some(g) && g < |s| && CloseLen(s[g + 1..]).None?
    ensures forall k | 0 <= k <= |s[1..]| :: MatchAtStart(s[1..][k..]).None?
  {
    forall k | 0 <= k <= |s[1..]| ensures MatchAtStart(s[1..][k..]).None? {
      assert s[1..][k..] == s[k + 1..];
      NoMatchFrom(s, g, k + 1);
    }
  }

  lemma NothingBehindReplaced(s: string, g: nat)
    requires MatchAtStart(s).None? && s != "" && Lead(s) == Some(g) && g < |s|
    ensures [s[0]] + RedactSecrets(s[1..]) == s
  {
    NoMatchesBehind(s, g);
    NoMatchesNoChange(s[1..]);
  }

  lemma NoLeadNoMatch(t: string)
    requires Lead(t).None?
    ensures MatchAtStart(t).None?
  {
  }

  /** Replacing the matches behind a character does not make a match start at it. */
  lemma NoNewMatch(s: string)
    requires s != "" && MatchAtStart(s).None?
    ensures MatchAtStart([s[0]] + RedactSecrets(s[1..])).None?
  {
    var t := [s[0]] + RedactSecrets(s[1..]);
    if Lead(t).None? {
      NoLeadNoMatch(t);
    } else {
      LeadIsOld(s, t);
      NothingBehindReplaced(s, Lead(s).value);
    }
  }

  lemma {:induction false} PlainCloses(w: string, rest: string)
    requires forall i | 0 <= i < |w| :: w[i] != '\'' && w[i] != '\\'
    ensures CloseLen(w + "'" + rest) == Some(|w| + 1)
  {
    if w == "" {
      assert ("" + "'" + rest)[0] == '\'';
    } else {
      PlainCloses(w[1..], rest);
      assert (w + "'" + rest)[1..] == w[1..] + "'" + rest;
    }
  }

  lemma PlaceholderKeepsLead(s: string, g: nat, rest: string)
    requires Lead(s) == Some(g) && g < |s|
    ensures Lead(s[..g] + PLACEHOLDER + rest) == Some(g)
  {
    var t := s[..g] + PLACEHOLDER + rest;
    QuoteFollowsSpace(s);
    assert s[..g + 1] == s[..g] + [s[g]];
    assert t[..g + 1] == s[..g] + [PLACEHOLDER[0]];
    LeadDependsOnPrefix(s, t, g);
  }

  lemma PlaceholderMatches(s: string, g: nat, rest: string)
    requires Lead(s) == Some(g) && g < |s|
    ensures MatchAtStart(s[..g] + PLACEHOLDER + rest) == Some(Span(g, g + |PLACEHOLDER|))
  {
    var t := s[..g] + PLACEHOLDER + rest;
    PlaceholderKeepsLead(s, g, rest);
    assert t[g + 1..] == PLACEHOLDER_BODY + "'" + rest;
    PlainCloses(PLACEHOLDER_BODY, rest);
  }

  /** Redacting is idempotent. */
  lemma {:induction false} RedactIsIdempotent(s: string)
    ensures RedactSecrets(RedactSecrets(s)) == RedactSecrets(s)
  {
    if s != "" {
      var m := MatchAtStart(s);
      var t := RedactSecrets(s);
      if m.Some? {
        MatchInRange(s);
        var g, r := m.value.lead, RedactSecrets(s[m.value.len..]);
        RedactIsIdempotent(s[m.value.len..]);
        PlaceholderMatches(s, g, r);
        assert t[..g] == s[..g] && t[g + |PLACEHOLDER|..] == r;
      } else {
        RedactIsIdempotent(s[1..]);
        NoNewMatch(s);
        assert t[1..] == RedactSecrets(s[1..]);
      }
    }
  }

  /** Wherever the redacted text still matches the pattern, the literal is the placeholder. */
  lemma {:induction false} OnlyPlaceholdersMatch(s: string, k: nat)
    requires k <= |RedactSecrets(s)| && MatchAtStart(RedactSecrets(s)[k..]).Some?
    ensures var m := MatchAtStart(RedactSecrets(s)[k..]).value;
            m.lead < m.len <= |RedactSecrets(s)| - k && RedactSecrets(s)[k..][m.lead..m.len] == PLACEHOLDER
    decreases |s|, 1
  {
    var t := RedactSecrets(s);
    var m := MatchAtStart(s);
    if s != "" {
      if m.Some? {
        MatchInRange(s);
        OnlyPlaceholderHere(s, k);
      } else {
        NoNewMatch(s);
        assert t[1..][k - 1..] == t[k..] && t[1..] == RedactSecrets(s[1..]);
        OnlyPlaceholdersMatch(s[1..], k - 1);
      }
    }
  }

  lemma {:induction false} OnlyPlaceholderHere(s: string, k: nat)
    requires MatchAtStart(s).Some?
    requires k <= |RedactSecrets(s)| && MatchAtStart(RedactSecrets(s)[k..]).Some?
    ensures var m := MatchAtStart(RedactSecrets(s)[k..]).value;
            m.lead < m.len <= |RedactSecrets(s)| - k && RedactSecrets(s)[k..][m.lead..m.len] == PLACEHOLDER
    decreases |s|, 0
  {
    MatchInRange(s);
    var g, n := MatchAtStart(s).value.lead, MatchAtStart(s).value.len;
    var r, e := RedactSecrets(s[n..]), g + |PLACEHOLDER|;
    var t := s[..g] + PLACEHOLDER + r;
    assert t == RedactSecrets(s);
    if k < e {
      OnlyMatchIsWhole(s, g, r, k);
    } else {
      assert t[k..] == r[k - e..];
      OnlyPlaceholdersMatch(s[n..], k - e);
    }
  }

  lemma PlaceholderStartsNoMatch(i: nat)
    requires i < |PLACEHOLDER|
    ensures !Folds(PLACEHOLDER[i], 'P') && !Folds(PLACEHOLDER[i], 'I')
  {
  }

  lemma OnlyMatchIsWhole(s: string, g: nat, r: string, k: nat)
    requires Lead(s) == Some(g) && g < |s| && k < g + |PLACEHOLDER|
    requires MatchAtStart((s[..g] + PLACEHOLDER + r)[k..]).Some?
    ensures k == 0 && MatchAtStart((s[..g] + PLACEHOLDER + r)[k..]) == Some(Span(g, g + |PLACEHOLDER|))
    ensures (s[..g] + PLACEHOLDER + r)[k..][g..g + |PLACEHOLDER|] == PLACEHOLDER
  {
    var t := s[..g] + PLACEHOLDER + r;
    assert MatchAtStart(t) == Some(Span(g, g + |PLACEHOLDER|)) by { PlaceholderMatches(s, g, r); }
    if k >= g {
      assert t[k] == PLACEHOLDER[k - g];
      LeadStartAt(t, k);
      PlaceholderStartsNoMatch(k - g);
    } else if k > 0 {
      LeadInterior(t, k);
    } else {
      assert t[0..] == t;
    }
  }
}
