/** What the filter logs for an operator to audit: in place of a refusal, and without secrets. */
module AuditLaws {
  import opened Basics
  import opened FilterRules
  import opened FilterFields
  import opened QueryFilter
  import Redact

  // ---------------------------------------------------------------- a query that does not parse

  /** Whatever clause with a secret the text holds, anywhere, holds the placeholder. */
  ghost predicate HoldsNoSecret(t: string) {
    forall k: nat | k <= |t| && Redact.MatchAtStart(t[k..]).Some? :: HoldsPlaceholder(t[k..])
  }

  ghost predicate HoldsPlaceholder(t: string)
    requires Redact.MatchAtStart(t).Some?
  {
    var m := Redact.MatchAtStart(t).value;
    m.lead < m.len <= |t| && t[m.lead..m.len] == "'***REDACTED***'"
  }

  lemma RedactedHoldsNoSecret(s: string)
    ensures HoldsNoSecret(Redact.RedactSecrets(s))
  {
    var t := Redact.RedactSecrets(s);
    forall k: nat | k <= |t| && Redact.MatchAtStart(t[k..]).Some? ensures HoldsPlaceholder(t[k..]) {
      Redact.OnlyPlaceholdersMatch(s, k);
      IsThePlaceholder();
    }
  }

  lemma IsThePlaceholder()
    ensures Redact.PLACEHOLDER == "'***REDACTED***'"
  {
  }

  /** It is logged just if the setting says so, in one line, redacted, and that holds no secret. */
  lemma UnparsedIsLoggedRedacted(c: FilterConfig, lib: Library, query: string)
    requires lib.parse(query).ParseError?
    ensures |AuditOf(c, lib, query)| == if c.onParseError == "audit" then 1 else 0
    ensures c.onParseError == "audit" ==>
              && AuditOf(c, lib, query)[0] == UnparsedQuery(Redact.RedactSecrets(query))
              && HoldsNoSecret(AuditOf(c, lib, query)[0].redacted)
  {
    RedactedHoldsNoSecret(query);
  }

  // ---------------------------------------------------------------- audit mode

  /** The line of one statement, by its signature and the lists alone. */
  ghost predicate LogsItsSignature(c: FilterConfig, lib: Library, query: string, raw: RawStmt) {
    var sig := SignatureOf(lib, query, raw);
    SignatureLine(c, lib, query, raw) ==
    if BlockedOrUnlisted(c.blockSignatures, c.allowSignatures, c.signatureAllowByDefault)(sig)
    then [BlockedSignature(sig.value)] else []
  }

  lemma AuditModeLogs(c: FilterConfig, lib: Library, query: string, raw: RawStmt)
    requires c.signatureFilterEnabled && c.signatureAuditMode
    ensures LogsItsSignature(c, lib, query, raw)
  {
  }

  lemma OneMoreLine(c: FilterConfig, lib: Library, query: string, stmts: seq<RawStmt>, n: nat)
    requires n < |stmts| && c.signatureFilterEnabled && c.signatureAuditMode
    ensures AuditTrail(c, lib, query, stmts, n + 1) == [] <==>
            AuditTrail(c, lib, query, stmts, n) == [] &&
            !BlockedOrUnlisted(c.blockSignatures, c.allowSignatures, c.signatureAllowByDefault)
               (SignatureOf(lib, query, stmts[n]))
  {
    AuditModeLogs(c, lib, query, stmts[n]);
    AuditOneMore(c, lib, query, stmts, n);
  }

  /** None of the first `n` statements has a signature of this kind. */
  ghost predicate NoneSigned(lib: Library, query: string, stmts: seq<RawStmt>, n: nat, kind: Option<string> -> bool)
    requires n <= |stmts|
  {
    n > 0 ==> NoneSigned(lib, query, stmts, n - 1, kind) && !kind(SignatureOf(lib, query, stmts[n - 1]))
  }

  lemma {:induction false} NoneSignedIff(lib: Library, query: string, stmts: seq<RawStmt>, n: nat,
                                         kind: Option<string> -> bool)
    requires n <= |stmts|
    ensures NoneSigned(lib, query, stmts, n, kind) <==>
            forall raw <- stmts[..n] :: !kind(SignatureOf(lib, query, raw))
  {
    if n > 0 {
      NoneSignedIff(lib, query, stmts, n - 1, kind);
      assert stmts[..n] == stmts[..n - 1] + [stmts[n - 1]];
    }
  }

  lemma {:induction false} TrailIsEmptyIff(c: FilterConfig, lib: Library, query: string, stmts: seq<RawStmt>, n: nat)
    requires n <= |stmts| && c.signatureFilterEnabled && c.signatureAuditMode
    ensures AuditTrail(c, lib, query, stmts, n) == [] <==>
            NoneSigned(lib, query, stmts, n,
                       BlockedOrUnlisted(c.blockSignatures, c.allowSignatures, c.signatureAllowByDefault))
  {
    if n > 0 {
      OneMoreLine(c, lib, query, stmts, n - 1);
      TrailIsEmptyIff(c, lib, query, stmts, n - 1);
    }
  }

  lemma AllowedTrail(c: FilterConfig, lib: Library, query: string)
    requires lib.parse(query).Parsed? && Allowed(c, lib, query)
    ensures var stmts := lib.parse(query).stmts;
            AuditOf(c, lib, query) == AuditTrail(c, lib, query, stmts, |stmts|)
  {
    var p := lib.parse(query);
    NoneRefusedIff(c, lib, query, p.heap, p.stmts, FirstRefused(c, lib, query, p.heap, p.stmts, 0));
  }

  lemma TrailIsEmptyUnlessSigned(c: FilterConfig, lib: Library, query: string)
    requires lib.parse(query).Parsed? && c.signatureFilterEnabled && c.signatureAuditMode
    ensures var stmts := lib.parse(query).stmts;
            AuditTrail(c, lib, query, stmts, |stmts|) == [] <==>
            !Signed(lib, query, BlockedOrUnlisted(c.blockSignatures, c.allowSignatures, c.signatureAllowByDefault))
  {
    var stmts := lib.parse(query).stmts;
    var kind := BlockedOrUnlisted(c.blockSignatures, c.allowSignatures, c.signatureAllowByDefault);
    TrailIsEmptyIff(c, lib, query, stmts, |stmts|);
    NoneSignedIff(lib, query, stmts, |stmts|, kind);
    assert stmts[..|stmts|] == stmts;
  }

  lemma WithoutAuditMode(c: FilterConfig, lib: Library, query: string)
    requires lib.parse(query).Parsed? && c.signatureFilterEnabled && c.signatureAuditMode
    ensures Allowed(c.(signatureAuditMode := false), lib, query) <==>
            Allowed(c, lib, query)
            && !Signed(lib, query, BlockedOrUnlisted(c.blockSignatures, c.allowSignatures, c.signatureAllowByDefault))
  {
    var on := c.(signatureAuditMode := true);
    assert on == c;
    AuditModeDecides(c, lib, query);
  }

  /** For a query that audit mode lets by, the log is empty if and only if the query would be allowed
      without audit mode too. */
  lemma AuditForetells(c: FilterConfig, lib: Library, query: string)
    requires lib.parse(query).Parsed? && c.signatureFilterEnabled && c.signatureAuditMode && Allowed(c, lib, query)
    ensures AuditOf(c, lib, query) == [] <==> Allowed(c.(signatureAuditMode := false), lib, query)
  {
    WithoutAuditMode(c, lib, query);
    AllowedTrail(c, lib, query);
    TrailIsEmptyUnlessSigned(c, lib, query);
  }

  /** Without audit mode, or without the signature filter, nothing is logged for a query that parses. */
  lemma {:induction false} NoTrailWithoutAudit(c: FilterConfig, lib: Library, query: string, stmts: seq<RawStmt>,
                                               n: nat)
    requires !c.signatureFilterEnabled || !c.signatureAuditMode
    ensures AuditTrail(c, lib, query, stmts, n) == []
  {
    if n > 0 {
      NoTrailWithoutAudit(c, lib, query, stmts, n - 1);
    }
  }
}
