/**
 The boundary with the remote completion service: the turns sent to it,
 and how a failed call is turned into one of three replies. The call
 itself is an input.
 */
module Remote {
  import opened Text

  datatype Role = System | User | Assistant

  /** One message of a conversation: `{"role": ..., "content": ...}`. */
  datatype Turn = Turn(role: Role, content: string)

  /** What the completion call produced: the content of the first choice,
      or the text of the exception it raised. */
  datatype ApiOutcome = Answered(content: string) | Raised(error: string)

  /** The three kinds of failure the user is told about. */
  datatype FaultKind = QuotaOrRateLimit | BadCredentials | Unclassified(error: string)

  /** "insufficient_quota" as written, or "rate_limit" in any case. */
  predicate QuotaFault(error: string) {
    IsSubstring("insufficient_quota", error) || IsSubstring("rate_limit", Lower(error))
  }

  /** "401", or "unauthorized" in any case. */
  predicate AuthFault(error: string) {
    IsSubstring("401", error) || IsSubstring("unauthorized", Lower(error))
  }

  /** The tests in the order `connect_to_gpt` makes them. */
  function ClassifyFault(error: string): FaultKind {
    if QuotaFault(error) then QuotaOrRateLimit
    else if AuthFault(error) then BadCredentials
    else Unclassified(error)
  }

  /** The reply for each fault. The literals are written in short pieces
      so that the verifier can index into them. */
  function FaultText(kind: FaultKind): string {
    match kind
    case QuotaOrRateLimit =>
      "\U{26A0}\U{FE0F} Groq API " + "quota/rate limit reached." + " Please wait a moment and try again."
    case BadCredentials =>
      "\U{26A0}\U{FE0F} Invalid " + "Groq API key. Please check" + " your GROQ_API_KEY in .env file."
    case Unclassified(error) =>
      "\U{26A0}\U{FE0F} Groq API Error: " + error
  }

  /** `connect_to_gpt`: the service's answer, or the text for its fault. */
  function Connect(outcome: ApiOutcome): string {
    match outcome
    case Answered(content) => content
    case Raised(error) => FaultText(ClassifyFault(error))
  }

  /** The quota test comes first: a fault that mentions a rate limit is a
      quota fault even when it also carries "401". */
  lemma QuotaBeforeCredentials(error: string)
    requires QuotaFault(error) && AuthFault(error)
    ensures ClassifyFault(error) == QuotaOrRateLimit
  {
  }

  /** A string with no ASCII letters occurs in a text exactly when it
      occurs in the lower-cased text. */
  lemma SubstringWithoutLetters(p: string, s: string)
    requires forall k :: 0 <= k < |p| ==> !('A' <= p[k] <= 'Z') && !('a' <= p[k] <= 'z')
    ensures IsSubstring(p, s) <==> IsSubstring(p, Lower(s))
  {
    if IsSubstring(p, s) {
      var i: nat :| i <= |s| && OccursAt(p, s, i);
      forall k | 0 <= k < |p| ensures Lower(s)[i + k] == p[k] {
        assert s[i + k] == p[k];
      }
      assert Lower(s)[i..i + |p|] == p;
      assert OccursAt(p, Lower(s), i);
    }
    if IsSubstring(p, Lower(s)) {
      var i: nat :| i <= |s| && OccursAt(p, Lower(s), i);
      forall k | 0 <= k < |p| ensures s[i + k] == p[k] {
        assert Lower(s)[i + k] == p[k];
      }
      assert s[i..i + |p|] == p;
      assert OccursAt(p, s, i);
    }
  }

  /** Only the "insufficient_quota" test looks at letter case: two faults
      that differ only in case, and carry no "insufficient_quota", are
      classified alike. */
  lemma CaseMattersOnlyForQuotaToken(e1: string, e2: string)
    requires Lower(e1) == Lower(e2)
    requires !IsSubstring("insufficient_quota", e1) && !IsSubstring("insufficient_quota", e2)
    ensures ClassifyFault(e1) == QuotaOrRateLimit <==> ClassifyFault(e2) == QuotaOrRateLimit
    ensures ClassifyFault(e1) == BadCredentials <==> ClassifyFault(e2) == BadCredentials
    ensures ClassifyFault(e1).Unclassified? <==> ClassifyFault(e2).Unclassified?
  {
    SubstringWithoutLetters("401", e1);
    SubstringWithoutLetters("401", e2);
  }

  /** A string that contains a character the text lacks does not occur in it. */
  lemma MissingCharacter(p: string, s: string, c: char)
    requires c in p && c !in s
    ensures !IsSubstring(p, s)
  {
  }

  /** "INSUFFICIENT_QUOTA" in capitals is not a quota fault, nor anything
      else: it is reported as an unclassified error. */
  lemma CapitalQuotaTokenUnclassified()
    ensures ClassifyFault("INSUFFICIENT_QUOTA") == Unclassified("INSUFFICIENT_QUOTA")
  {
    var e := "INSUFFICIENT_QUOTA";
    assert e[0] == 'I';
    SubstringOfEqualLength("insufficient_quota", e);
    assert 'r' in "rate_limit" && 'r' in "unauthorized" && '4' in "401";
    assert forall k :: 0 <= k < |Lower(e)| ==> Lower(e)[k] != 'r';
    MissingCharacter("rate_limit", Lower(e), 'r');
    MissingCharacter("unauthorized", Lower(e), 'r');
    MissingCharacter("401", e, '4');
  }

  /** "Rate_Limit" in any case wins over "401". */
  lemma RateLimitWithStatus401()
    ensures ClassifyFault("401 Rate_Limit") == QuotaOrRateLimit
  {
    var t := Lower("401 Rate_Limit");
    assert t[4..14] == "rate_limit";
    assert OccursAt("rate_limit", t, 4);
  }

  /** The three replies differ, and an unclassified fault's reply carries
      the fault's text unchanged. */
  lemma FaultTextInjective(a: FaultKind, b: FaultKind)
    requires FaultText(a) == FaultText(b)
    ensures a == b
  {
    var t := FaultText(a);
    forall k: FaultKind ensures |FaultText(k)| >= 19
      && (k.BadCredentials? <==> FaultText(k)[3] == 'I')
      && (k.QuotaOrRateLimit? <==> FaultText(k)[12] == 'q')
    {
    }
    if a.Unclassified? {
      assert a.error == t[19..] == b.error;
    }
  }
}
