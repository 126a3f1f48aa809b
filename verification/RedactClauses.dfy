/** What the redacting pattern matches, in the terms of someone who writes SQL: the keywords in any
    case, then white space, then a literal that closes where its backslashes say. */
module RedactClauses {
  import opened Basics
  import opened Redact

  // ---------------------------------------------------------------- keywords and white space

  /** The capital of an ASCII letter; Unicode's simple folding adds the long s to the S. */
  function Upper(c: char): char {
    if 'a' <= c <= 'z' then (c as int - 32) as char else if c == '\U{017F}' then 'S' else c
  }

  predicate Spells(t: string, word: string) {
    |t| == |word| && forall i | 0 <= i < |t| :: Upper(t[i]) == word[i]
  }

  predicate IsBlank(w: string) {
    w != "" && forall i | 0 <= i < |w| :: w[i] in {' ', '\t', '\n', '\r', '\U{000C}'}
  }

  predicate IsCapital(word: string) {
    forall i | 0 <= i < |word| :: 'A' <= word[i] <= 'Z'
  }

  lemma FoldsIff(c: char, u: char)
    requires 'A' <= u <= 'Z'
    ensures Folds(c, u) <==> Upper(c) == u
  {
  }

  lemma WordIsSpelled(s: string, k: nat, word: string)
    requires IsCapital(word) && k + |word| <= |s|
    ensures WordAt(s, k, word) <==> Spells(s[k..k + |word|], word)
  {
    forall i | 0 <= i < |word| ensures Folds(s[k + i], word[i]) <==> Upper(s[k..k + |word|][i]) == word[i] {
      FoldsIff(s[k + i], word[i]);
    }
  }

  lemma SpacesAreBlank(s: string, lo: nat, hi: nat)
    requires lo <= hi <= |s|
    ensures SpacesIn(s, lo, hi) <==> IsBlank(s[lo..hi])
  {
    if SpacesIn(s, lo, hi) {
      forall i | 0 <= i < hi - lo ensures s[lo..hi][i] in {' ', '\t', '\n', '\r', '\U{000C}'} {
        assert IsSpace(s[lo + i]);
      }
    } else if IsBlank(s[lo..hi]) {
      forall i | lo <= i < hi ensures IsSpace(s[i]) {
        assert s[lo..hi][i - lo] in {' ', '\t', '\n', '\r', '\U{000C}'};
      }
    }
  }

  // ---------------------------------------------------------------- the literal

  /** How many backslashes stand right before position `i`. */
  function Backslashes(b: string, i: nat): nat
    requires i <= |b|
  {
    if i > 0 && b[i - 1] == '\\' then 1 + Backslashes(b, i - 1) else 0
  }

  /** The inside of a literal: an even number of backslashes before a quote leaves it a quote, so
      there is none of those inside, and at the end there is one. */
  ghost predicate IsInside(b: string) {
    && Backslashes(b, |b|) % 2 == 0
    && forall i | 0 <= i < |b| && b[i] == '\'' :: Backslashes(b, i) % 2 == 1
  }

  lemma {:induction false} BackslashesAfterUnit(b: string, u: nat, i: nat)
    requires (u == 1 && |b| >= 1 && b[0] != '\\') || (u == 2 && |b| >= 2 && b[0] == '\\')
    requires u <= i <= |b|
    ensures Backslashes(b, i) % 2 == Backslashes(b[u..], i - u) % 2
  {
    if i > u {
      assert b[u..][i - u - 1] == b[i - 1];
      if b[i - 1] == '\\' {
        BackslashesAfterUnit(b, u, i - 1);
      }
    } else if u == 2 {
      assert Backslashes(b, 1) == 1;
    }
  }

  lemma UnitThenInside(b: string, u: nat)
    requires (u == 1 && |b| >= 1 && b[0] != '\\' && b[0] != '\'') || (u == 2 && |b| >= 2 && b[0] == '\\')
    ensures IsInside(b) <==> IsInside(b[u..])
  {
    BackslashesAfterUnit(b, u, |b|);
    if IsInside(b) {
      forall i | 0 <= i < |b| - u && b[u..][i] == '\'' ensures Backslashes(b[u..], i) % 2 == 1 {
        assert b[u..][i] == b[u + i];
        BackslashesAfterUnit(b, u, u + i);
      }
    }
    if IsInside(b[u..]) {
      forall i | 0 <= i < |b| && b[i] == '\'' ensures Backslashes(b, i) % 2 == 1 {
        if i >= u {
          assert b[u..][i - u] == b[i];
          BackslashesAfterUnit(b, u, i);
        } else {
          assert Backslashes(b, 1) == 1;
        }
      }
    }
  }

  lemma {:induction false} BodyIsInside(b: string)
    ensures IsBody(b) <==> IsInside(b)
  {
    if b != "" {
      if b[0] == '\\' {
        if |b| >= 2 {
          UnitThenInside(b, 2);
          BodyIsInside(b[2..]);
        } else {
          assert Backslashes(b, 1) == 1;
        }
      } else if b[0] == '\'' {
        assert Backslashes(b, 0) == 0;
      } else {
        UnitThenInside(b, 1);
        BodyIsInside(b[1..]);
      }
    }
  }

  // ---------------------------------------------------------------- clauses

  ghost predicate NamesPassword(lead: string) {
    exists t, w :: lead == t + w && Spells(t, "PASSWORD") && IsBlank(w)
  }

  ghost predicate NamesIdentifiedBy(lead: string) {
    exists t, v, u, w :: lead == t + v + u + w && Spells(t, "IDENTIFIED") && IsBlank(v) && Spells(u, "BY") && IsBlank(w)
  }

  ghost predicate IsClauseLead(lead: string) {
    NamesPassword(lead) || NamesIdentifiedBy(lead)
  }

  /** The text as a whole is a clause with a secret; its literal opens after `g` characters. */
  ghost predicate IsClause(m: string, g: nat) {
    g + 2 <= |m| && IsClauseLead(m[..g]) && m[g] == '\'' && IsInside(m[g + 1..|m| - 1]) && m[|m| - 1] == '\''
  }

  lemma PasswordLeadIff(lead: string)
    ensures NamesPassword(lead) <==> WordAt(lead, 0, "PASSWORD") && SpacesIn(lead, 8, |lead|)
  {
    if |lead| >= 8 {
      WordIsSpelled(lead, 0, "PASSWORD");
      SpacesAreBlank(lead, 8, |lead|);
      assert lead == lead[..8] + lead[8..];
    }
    if t, w :| lead == t + w && Spells(t, "PASSWORD") && IsBlank(w) {
      assert lead[0..8] == t && lead[8..|lead|] == w;
    }
  }

  lemma IdentifiedLeadIs(lead: string, j: nat)
    requires 10 <= j && j + 2 <= |lead|
    ensures WordAt(lead, 0, "IDENTIFIED") && SpacesIn(lead, 10, j)
            && WordAt(lead, j, "BY") && SpacesIn(lead, j + 2, |lead|)
            <==> Spells(lead[..10], "IDENTIFIED") && IsBlank(lead[10..j]) && Spells(lead[j..j + 2], "BY")
                 && IsBlank(lead[j + 2..])
  {
    WordIsSpelled(lead, 0, "IDENTIFIED");
    WordIsSpelled(lead, j, "BY");
    SpacesAreBlank(lead, 10, j);
    SpacesAreBlank(lead, j + 2, |lead|);
  }

  lemma IdentifiedLeadIsNamed(lead: string, j: nat)
    requires WordAt(lead, 0, "IDENTIFIED") && SpacesIn(lead, 10, j) && WordAt(lead, j, "BY")
    requires SpacesIn(lead, j + 2, |lead|)
    ensures NamesIdentifiedBy(lead)
  {
    IdentifiedLeadIs(lead, j);
    assert lead == lead[..10] + lead[10..j] + lead[j..j + 2] + lead[j + 2..];
  }

  lemma NamedIsIdentifiedLead(t: string, v: string, u: string, w: string)
    requires Spells(t, "IDENTIFIED") && IsBlank(v) && Spells(u, "BY") && IsBlank(w)
    ensures var lead, j := t + v + u + w, 10 + |v|;
            && WordAt(lead, 0, "IDENTIFIED") && SpacesIn(lead, 10, j)
            && WordAt(lead, j, "BY") && SpacesIn(lead, j + 2, |lead|)
  {
    var lead, j := t + v + u + w, 10 + |v|;
    assert lead[..10] == t && lead[10..j] == v && lead[j..j + 2] == u && lead[j + 2..] == w;
    IdentifiedLeadIs(lead, j);
  }

  lemma IdentifiedLeadIff(lead: string)
    ensures NamesIdentifiedBy(lead) <==>
            WordAt(lead, 0, "IDENTIFIED") &&
            exists j: nat :: SpacesIn(lead, 10, j) && WordAt(lead, j, "BY") && SpacesIn(lead, j + 2, |lead|)
  {
    if WordAt(lead, 0, "IDENTIFIED") {
      if j: nat :| SpacesIn(lead, 10, j) && WordAt(lead, j, "BY") && SpacesIn(lead, j + 2, |lead|) {
        IdentifiedLeadIsNamed(lead, j);
      }
    }
    if t, v, u, w :| lead == t + v + u + w && Spells(t, "IDENTIFIED") && IsBlank(v) && Spells(u, "BY") && IsBlank(w) {
      NamedIsIdentifiedLead(t, v, u, w);
    }
  }

  lemma LeadIff(lead: string)
    ensures IsLead(lead) <==> IsClauseLead(lead)
  {
    PasswordLeadIff(lead);
    IdentifiedLeadIff(lead);
  }

  lemma MatchIsClause(m: string, g: nat)
    ensures IsMatch(m, g) <==> IsClause(m, g)
  {
    if g + 2 <= |m| {
      LeadIff(m[..g]);
      BodyIsInside(m[g + 1..|m| - 1]);
    }
  }

  /** The scanner finds a match at the front of a text if and only if the text begins with a clause,
      and covers exactly that. */
  lemma MatchesAreClauses(s: string, g: nat, n: nat)
    ensures MatchAtStart(s) == Some(Span(g, n)) <==> n <= |s| && IsClause(s[..n], g)
  {
    ScannerIsPattern(s, g, n);
    if n <= |s| {
      MatchIsClause(s[..n], g);
    }
  }

  // ---------------------------------------------------------------- what becomes of them

  lemma ClauseInFront(lead: string, secret: string, rest: string)
    requires IsClauseLead(lead) && IsInside(secret)
    ensures var s, n := lead + "'" + secret + "'" + rest, |lead| + 2 + |secret|;
            IsClause(s[..n], |lead|) && s[..|lead|] == lead && s[n..] == rest
  {
    var s, g, n := lead + "'" + secret + "'" + rest, |lead|, |lead| + 2 + |secret|;
    assert s[..n][..g] == lead && s[..n][g + 1..n - 1] == secret;
    assert s[..g] == lead && s[n..] == rest;
  }

  lemma PlaceholderIs()
    ensures PLACEHOLDER == "'***REDACTED***'"
  {
  }

  lemma MatchIsReplaced(s: string, g: nat, n: nat)
    requires g < n <= |s| && MatchAtStart(s) == Some(Span(g, n))
    ensures RedactSecrets(s) == s[..g] + PLACEHOLDER + RedactSecrets(s[n..])
  {
  }

  lemma CharacterIsKept(s: string)
    requires s != "" && MatchAtStart(s).None?
    ensures RedactSecrets(s) == [s[0]] + RedactSecrets(s[1..])
  {
  }

  lemma ClauseIsRedacted(lead: string, secret: string, rest: string)
    requires IsClauseLead(lead) && IsInside(secret)
    ensures RedactSecrets(lead + "'" + secret + "'" + rest) == lead + "'***REDACTED***'" + RedactSecrets(rest)
  {
    var s, g, n := lead + "'" + secret + "'" + rest, |lead|, |lead| + 2 + |secret|;
    ClauseInFront(lead, secret, rest);
    MatchesAreClauses(s, g, n);
    MatchIsReplaced(s, g, n);
    PlaceholderIs();
  }

  /** PASSWORD in any case, any white space, and a literal: the secret is gone, all else stays. */
  lemma PasswordIsRedacted(keyword: string, space: string, secret: string, rest: string)
    requires Spells(keyword, "PASSWORD") && IsBlank(space) && IsInside(secret)
    ensures RedactSecrets(keyword + space + "'" + secret + "'" + rest) ==
            keyword + space + "'***REDACTED***'" + RedactSecrets(rest)
  {
    assert NamesPassword(keyword + space);
    ClauseIsRedacted(keyword + space, secret, rest);
  }

  /** The same with IDENTIFIED BY. */
  lemma IdentifiedByIsRedacted(keyword: string, space: string, also: string, gap: string, secret: string, rest: string)
    requires Spells(keyword, "IDENTIFIED") && IsBlank(space) && Spells(also, "BY") && IsBlank(gap) && IsInside(secret)
    ensures RedactSecrets(keyword + space + also + gap + "'" + secret + "'" + rest) ==
            keyword + space + also + gap + "'***REDACTED***'" + RedactSecrets(rest)
  {
    var lead := keyword + space + also + gap;
    assert NamesIdentifiedBy(lead);
    ClauseIsRedacted(lead, secret, rest);
  }

  /** Where no clause begins, the character stays. */
  lemma OthersStay(s: string)
    requires s != "" && forall g, n | 0 <= n <= |s| :: !IsClause(s[..n], g)
    ensures RedactSecrets(s) == [s[0]] + RedactSecrets(s[1..])
  {
    if MatchAtStart(s).Some? {
      var m := MatchAtStart(s).value;
      MatchesAreClauses(s, m.lead, m.len);
    }
  }

  // ---------------------------------------------------------------- case

  predicate SameButCase(s: string, t: string) {
    |s| == |t| && forall i | 0 <= i < |s| :: Upper(s[i]) == Upper(t[i])
  }

  lemma CaseKeepsWords(s: string, t: string, k: nat, word: string)
    requires SameButCase(s, t) && IsCapital(word)
    ensures WordAt(s, k, word) <==> WordAt(t, k, word)
  {
    if k + |word| <= |s| {
      forall i | 0 <= i < |word| ensures Folds(s[k + i], word[i]) <==> Folds(t[k + i], word[i]) {
        FoldsIff(s[k + i], word[i]);
        FoldsIff(t[k + i], word[i]);
      }
    }
  }

  lemma {:induction false} CaseKeepsSpaces(s: string, t: string, k: nat)
    requires SameButCase(s, t) && k <= |s|
    ensures SpaceEnd(s, k) == SpaceEnd(t, k)
    decreases |s| - k
  {
    if k < |s| {
      CaseKeepsSpaces(s, t, k + 1);
    }
  }

  lemma {:induction false} CaseKeepsClosing(s: string, t: string)
    requires SameButCase(s, t)
    ensures CloseLen(s) == CloseLen(t)
  {
    if s != "" && s[0] != '\'' {
      var unit := if s[0] == '\\' then 2 else 1;
      if unit <= |s| {
        CaseKeepsClosing(s[unit..], t[unit..]);
      }
    }
  }

  lemma CaseKeepsQuote(s: string, t: string, k: nat)
    requires SameButCase(s, t) && k <= |s|
    ensures QuoteAfterSpace(s, k) == QuoteAfterSpace(t, k)
  {
    CaseKeepsSpaces(s, t, k);
  }

  ghost predicate SameWord(s: string, t: string, k: nat, word: string) {
    WordAt(s, k, word) <==> WordAt(t, k, word)
  }

  ghost predicate SameQuote(s: string, t: string, k: nat) {
    k <= |s| && k <= |t| ==> QuoteAfterSpace(s, k) == QuoteAfterSpace(t, k)
  }

  lemma LeadsAlike(s: string, t: string)
    requires |s| == |t| && SameWord(s, t, 0, "PASSWORD") && SameWord(s, t, 0, "IDENTIFIED") && SameQuote(s, t, 8)
    requires |s| >= 10 ==>
               && SpaceEnd(s, 10) == SpaceEnd(t, 10)
               && SameWord(s, t, SpaceEnd(s, 10), "BY") && SameQuote(s, t, SpaceEnd(s, 10) + 2)
    ensures Lead(s) == Lead(t)
  {
  }

  lemma CaseKeepsLead(s: string, t: string)
    requires SameButCase(s, t)
    ensures Lead(s) == Lead(t)
  {
    CaseKeepsWords(s, t, 0, "PASSWORD");
    CaseKeepsWords(s, t, 0, "IDENTIFIED");
    if |s| >= 8 {
      CaseKeepsQuote(s, t, 8);
    }
    if |s| >= 10 {
      CaseKeepsSpaces(s, t, 10);
      var a := SpaceEnd(s, 10);
      CaseKeepsWords(s, t, a, "BY");
      if a + 2 <= |s| {
        CaseKeepsQuote(s, t, a + 2);
      }
    }
    LeadsAlike(s, t);
  }

  lemma CaseOfRest(s: string, t: string, n: nat)
    requires SameButCase(s, t) && n <= |s|
    ensures SameButCase(s[..n], t[..n]) && SameButCase(s[n..], t[n..])
  {
  }

  lemma CaseOfSum(s: string, t: string, x: string, y: string)
    requires SameButCase(s, t) && SameButCase(x, y)
    ensures SameButCase(s + x, t + y)
  {
  }

  lemma CaseKeepsMatch(s: string, t: string)
    requires SameButCase(s, t)
    ensures MatchAtStart(s) == MatchAtStart(t)
  {
    CaseKeepsLead(s, t);
    if Lead(s).Some? {
      var k := Lead(s).value + 1;
      CaseOfRest(s, t, k);
      CaseKeepsClosing(s[k..], t[k..]);
    }
  }

  lemma CaseOfSecret(s: string, t: string, g: nat, x: string, y: string)
    requires SameButCase(s, t) && g <= |s| && SameButCase(x, y)
    ensures SameButCase(s[..g] + PLACEHOLDER + x, t[..g] + PLACEHOLDER + y)
  {
    CaseOfRest(s, t, g);
    CaseOfSum(s[..g], t[..g], PLACEHOLDER, PLACEHOLDER);
    CaseOfSum(s[..g] + PLACEHOLDER, t[..g] + PLACEHOLDER, x, y);
  }

  /** Changing the case of letters moves no match: what is shown changes in case alone. */
  lemma {:induction false} CaseMovesNothing(s: string, t: string)
    requires SameButCase(s, t)
    ensures SameButCase(RedactSecrets(s), RedactSecrets(t))
  {
    if s != "" {
      CaseKeepsMatch(s, t);
      if MatchAtStart(s).Some? {
        MatchInRange(s);
        var g, n := MatchAtStart(s).value.lead, MatchAtStart(s).value.len;
        MatchIsReplaced(s, g, n);
        MatchIsReplaced(t, g, n);
        CaseOfRest(s, t, n);
        CaseMovesNothing(s[n..], t[n..]);
        CaseOfSecret(s, t, g, RedactSecrets(s[n..]), RedactSecrets(t[n..]));
      } else {
        CharacterIsKept(s);
        CharacterIsKept(t);
        CaseOfRest(s, t, 1);
        CaseMovesNothing(s[1..], t[1..]);
        CaseOfSum([s[0]], [t[0]], RedactSecrets(s[1..]), RedactSecrets(t[1..]));
      }
    }
  }
}
