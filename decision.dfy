/**
 * The supervisor's decision grammar (`isApprovalYes`, `isApprovalNo`) and the
 * order in which the handler tries the two (yes first).
 */
module Decision {
  import opened Text

  /** `isApprovalYes`: exact `1`, `setuju`, `ya`, `y`, or `setuju` / `approve` anywhere. */
  predicate IsApprovalYes(text: string) {
    YesWord(Normalize(text))
  }

  predicate YesWord(t: string) {
    t == "1" || t == "setuju" || t == "ya" || t == "y" || Contains(t, "setuju") || Contains(t, "approve")
  }

  /** `isApprovalNo`: exact `2`, `tidak`, `ga`, `gak`, or `tolak` / `reject` anywhere. */
  predicate IsApprovalNo(text: string) {
    NoWord(Normalize(text))
  }

  predicate NoWord(t: string) {
    t == "2" || t == "tidak" || t == "ga" || t == "gak" || Contains(t, "tolak") || Contains(t, "reject")
  }

  datatype Decision = Approve | Reject | Undecided

  /** How the handler reads a reply to an approval request: yes is tested before no. */
  function Classify(body: string): Decision {
    if IsApprovalYes(body) then Approve
    else if IsApprovalNo(body) then Reject
    else Undecided
  }

  /** The grammar ignores the case of ASCII letters. */
  lemma ClassifyIgnoresCase(body: string)
    ensures Classify(Lower(body)) == Classify(body)
  {
    TrimLowerCommute(body);
    LowerIdempotent(Trim(body));
  }

  /** The grammar ignores whitespace around the reply. */
  lemma ClassifyIgnoresSurroundingSpace(before: string, body: string, after: string)
    requires AllWhitespace(before) && AllWhitespace(after)
    ensures Classify(before + body + after) == Classify(body)
  {
    TrimIgnoresSurroundingSpace(before, body, after);
    assert Normalize(before + body + after) == Normalize(body);
  }

  /**
   * A keyword inside the normalized reply survives normalization: if `w`
   * lower-cases to `k` and has no whitespace at its ends, the normalized
   * `before + w + after` contains `k`.
   */
  lemma KeywordSurvivesNormalize(before: string, w: string, after: string, k: string)
    requires w != [] && Lower(w) == k
    requires !IsJsWhitespace(w[0]) && !IsJsWhitespace(w[|w| - 1])
    ensures Contains(Normalize(before + w + after), k)
  {
    var i := TrimKeepsInnerPiece(before, w, after);
    LoweredOccurrence(Trim(before + w + after), w, i);
  }

  lemma LoweredOccurrence(r: string, w: string, i: nat)
    requires OccursAt(r, w, i)
    ensures Contains(Lower(r), Lower(w))
  {
    LowerSlice(r, i, i + |w|);
    ContainsAt(Lower(r), Lower(w), i);
  }

  /** A word whose lower-case form has no whitespace at its ends has none either. */
  lemma KeywordEnds(w: string, k: string)
    requires Lower(w) == k && k != []
    requires !IsJsWhitespace(k[0]) && !IsJsWhitespace(k[|k| - 1])
    ensures w != [] && !IsJsWhitespace(w[0]) && !IsJsWhitespace(w[|w| - 1])
  {
    LowerCharWhitespace(w[0]);
    LowerCharWhitespace(w[|w| - 1]);
  }

  /**
   * `setuju` or `approve`, in any ASCII case, anywhere in the reply makes it
   * an approval, even when the reply also passes `isApprovalNo` (as
   * `setuju tolak` does), because yes is tested first.
   */
  lemma ApproveKeywordAnywhere(before: string, w: string, after: string)
    requires Lower(w) == "setuju" || Lower(w) == "approve"
    ensures Classify(before + w + after) == Approve
  {
    KeywordEnds(w, Lower(w));
    KeywordSurvivesNormalize(before, w, after, Lower(w));
  }

  /** `tolak` or `reject`, in any ASCII case, anywhere in the reply makes it a rejection unless it is also an approval. */
  lemma RejectKeywordAnywhere(before: string, w: string, after: string)
    requires Lower(w) == "tolak" || Lower(w) == "reject"
    ensures IsApprovalNo(before + w + after)
    ensures Classify(before + w + after) != Undecided
  {
    KeywordEnds(w, Lower(w));
    KeywordSurvivesNormalize(before, w, after, Lower(w));
  }

  /** A string already trimmed and in lower case is its own normal form. */
  lemma NormalizeFixesNormal(t: string)
    requires AllLowerAscii(t)
    requires t != [] ==> !IsJsWhitespace(t[0]) && !IsJsWhitespace(t[|t| - 1])
    ensures Normalize(t) == t
  {
    TrimFixesTrimmed(t);
    LowerFixesLowercase(t);
  }

  predicate AllLowerAscii(t: string) {
    forall i :: 0 <= i < |t| ==> 'a' <= t[i] <= 'z' || t[i] == ' '
  }

  /** The rejection words `tidak`, `ga`, `gak` count only on their own: `gak` rejects, ... */
  lemma ExactRejectionWord(reply: string)
    requires reply == "gak"
    ensures Classify(reply) == Reject
  {
    NormalizeFixesNormal(reply);
    ShortHasNoKeyword(reply);
  }

  /** ... and `gak mau` is neither a rejection nor an approval. */
  lemma RejectionWordWithMore(reply: string)
    requires reply == "gak mau"
    ensures Classify(reply) == Undecided
  {
    NormalizeFixesNormal(reply);
    NoKeywordIn(reply, "tolak");
    NoKeywordIn(reply, "reject");
    NoKeywordIn(reply, "setuju");
    NoKeywordIn(reply, "approve");
  }

  lemma ShortHasNoKeyword(t: string)
    requires |t| < 5
    ensures !Contains(t, "tolak") && !Contains(t, "reject") && !Contains(t, "setuju") && !Contains(t, "approve")
  {
    if Contains(t, "tolak") { ContainsNoLonger(t, "tolak"); }
    if Contains(t, "reject") { ContainsNoLonger(t, "reject"); }
    if Contains(t, "setuju") { ContainsNoLonger(t, "setuju"); }
    if Contains(t, "approve") { ContainsNoLonger(t, "approve"); }
  }

  /** `gak mau` contains none of the keywords: no position of it starts one of them. */
  lemma NoKeywordIn(t: string, k: string)
    requires t == "gak mau"
    requires k == "tolak" || k == "reject" || k == "setuju" || k == "approve"
    ensures !Contains(t, k)
  {
    forall i: nat | i + |k| <= |t|
      ensures !OccursAt(t, k, i)
    {
      assert t[i..i + |k|][0] == t[i];
    }
  }

  /** A reply carrying both a yes and a no keyword approves: `setuju tolak` is an approval. */
  lemma AgreeRefuseApproves(reply: string, yes: string, no: string)
    requires yes == "setuju" && no == "tolak" && reply == yes + " " + no
    ensures IsApprovalNo(reply)
    ensures Classify(reply) == Approve
  {
    LowerFixesLowercase(yes);
    LowerFixesLowercase(no);
    assert reply == yes + " " + no == (yes + " ") + no + [];
    RejectKeywordAnywhere(yes + " ", no, []);
    assert reply == [] + yes + (" " + no);
    ApproveKeywordAnywhere([], yes, " " + no);
  }

  lemma LowerFixesLowercase(w: string)
    requires AllLowerAscii(w)
    ensures Lower(w) == w
  {
    assert forall i :: 0 <= i < |w| ==> Lower(w)[i] == w[i];
  }
}
