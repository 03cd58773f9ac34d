/** Collecting relayer signatures: local verification, then removal of repeated public keys. */
module Signatures {
  type Digest = string

  datatype RelayerSig = RelayerSig(pubkey: string, signature: string)

  /** What one configured signer gives back: nothing usable, or a signature still to be verified. */
  datatype SignerResponse = NoSignature | Signed(sig: RelayerSig)

  /** Ed25519 verification, kept abstract. */
  type Verifier = (RelayerSig, Digest) -> bool

  function LowerChar(c: char): (r: char) {
    if 'A' <= c <= 'Z' then (c as int + 32) as char else c
  }

  /** ASCII lower-casing; verified public keys are hex strings. */
  function Lower(s: string): (r: string) {
    seq(|s|, i requires 0 <= i < |s| => LowerChar(s[i]))
  }

  /** The responses that carry a signature which verifies over `digest`, in node order. */
  function VerifiedSigs(verify: Verifier, digest: Digest, responses: seq<SignerResponse>): (r: seq<RelayerSig>) {
    if responses == [] then []
    else
      (match responses[0]
       case Signed(sig) => if verify(sig, digest) then [sig] else []
       case NoSignature => [])
      + VerifiedSigs(verify, digest, responses[1..])
  }

  /** The distinct case-folded public keys of `sigs`. */
  function KeySet(sigs: seq<RelayerSig>): (r: set<string>) {
    set i | 0 <= i < |sigs| :: Lower(sigs[i].pubkey)
  }

  /** No two signatures share a case-folded public key. */
  predicate DistinctKeys(sigs: seq<RelayerSig>) {
    forall i, j :: 0 <= i < j < |sigs| ==> Lower(sigs[i].pubkey) != Lower(sigs[j].pubkey)
  }

  /** The first signature of every case-folded key, in order. */
  function FirstPerKey(sigs: seq<RelayerSig>): (r: seq<RelayerSig>) {
    if sigs == [] then []
    else
      var init, last := sigs[..|sigs| - 1], sigs[|sigs| - 1];
      if Lower(last.pubkey) in KeySet(init) then FirstPerKey(init) else FirstPerKey(init) + [last]
  }

  lemma {:induction false} VerifiedSigsVerify(verify: Verifier, digest: Digest, responses: seq<SignerResponse>,
                                              sig: RelayerSig)
    ensures sig in VerifiedSigs(verify, digest, responses) <==> Signed(sig) in responses && verify(sig, digest)
  {
    if responses != [] {
      VerifiedSigsVerify(verify, digest, responses[1..], sig);
      assert Signed(sig) in responses <==> responses[0] == Signed(sig) || Signed(sig) in responses[1..];
    }
  }

  lemma KeySetAppend(sigs: seq<RelayerSig>, last: RelayerSig)
    ensures KeySet(sigs + [last]) == KeySet(sigs) + {Lower(last.pubkey)}
  {
    var all := sigs + [last];
    assert all[|sigs|] == last;
    forall k | k in KeySet(sigs) ensures k in KeySet(all) {
      var i :| 0 <= i < |sigs| && Lower(sigs[i].pubkey) == k;
      assert all[i] == sigs[i];
    }
  }

  /** Deduplication keeps the key set, repeats no key, and only drops elements. */
  lemma {:induction false} FirstPerKeyFacts(sigs: seq<RelayerSig>)
    ensures KeySet(FirstPerKey(sigs)) == KeySet(sigs)
    ensures DistinctKeys(FirstPerKey(sigs))
    ensures forall sig :: sig in FirstPerKey(sigs) ==> sig in sigs
    ensures |FirstPerKey(sigs)| == |KeySet(sigs)|
  {
    if sigs != [] {
      var init, last := sigs[..|sigs| - 1], sigs[|sigs| - 1];
      assert sigs == init + [last];
      FirstPerKeyFacts(init);
      KeySetAppend(init, last);
      KeySetAppend(FirstPerKey(init), last);
      if Lower(last.pubkey) in KeySet(init) {
        assert KeySet(sigs) == KeySet(init);
      } else {
        var kept := FirstPerKey(init);
        forall i, j | 0 <= i < j < |kept| + 1
          ensures Lower((kept + [last])[i].pubkey) != Lower((kept + [last])[j].pubkey)
        {
          assert Lower(kept[i].pubkey) in KeySet(kept);
        }
      }
    }
  }

  /** The signatures an event is left with once every signer has answered. */
  function Collected(verify: Verifier, digest: Digest, responses: seq<SignerResponse>): (r: seq<RelayerSig>) {
    FirstPerKey(VerifiedSigs(verify, digest, responses))
  }

  /** Every signature carried is locally verified over `digest` and no key signs twice. */
  ghost predicate ThresholdSigned(verify: Verifier, digest: Digest, threshold: nat, sigs: seq<RelayerSig>) {
    && |sigs| == threshold
    && DistinctKeys(sigs)
    && forall i :: 0 <= i < |sigs| ==> verify(sigs[i], digest)
  }

  /** The slice that is submitted meets the threshold exactly. */
  lemma CollectedPrefixIsThresholdSigned(verify: Verifier, digest: Digest, responses: seq<SignerResponse>,
                                         threshold: nat)
    requires threshold <= |Collected(verify, digest, responses)|
    ensures ThresholdSigned(verify, digest, threshold, Collected(verify, digest, responses)[..threshold])
  {
    var verified := VerifiedSigs(verify, digest, responses);
    var all := FirstPerKey(verified);
    FirstPerKeyFacts(verified);
    forall i | 0 <= i < threshold ensures verify(all[i], digest) {
      assert all[i] in verified;
      VerifiedSigsVerify(verify, digest, responses, all[i]);
    }
  }

  /** The two filters of `processEvent`, run as the loop with its set of keys already seen. */
  method CollectSignatures(verify: Verifier, digest: Digest, responses: seq<SignerResponse>)
    returns (sigs: seq<RelayerSig>)
    ensures sigs == Collected(verify, digest, responses)
    ensures |sigs| == |KeySet(VerifiedSigs(verify, digest, responses))|
    ensures DistinctKeys(sigs)
    ensures forall i :: 0 <= i < |sigs| ==> Signed(sigs[i]) in responses && verify(sigs[i], digest)
  {
    var raw := VerifiedSigs(verify, digest, responses);
    var seen: set<string> := {};
    sigs := [];
    for i := 0 to |raw|
      invariant sigs == FirstPerKey(raw[..i])
      invariant seen == KeySet(raw[..i])
    {
      NextSig(raw, i);
      var pubkey := Lower(raw[i].pubkey);
      if pubkey !in seen {
        seen := seen + {pubkey};
        sigs := sigs + [raw[i]];
      }
    }
    assert raw[..|raw|] == raw;
    FirstPerKeyFacts(raw);
    forall i | 0 <= i < |sigs| ensures Signed(sigs[i]) in responses && verify(sigs[i], digest) {
      assert sigs[i] in raw;
      VerifiedSigsVerify(verify, digest, responses, sigs[i]);
    }
  }

  /** One turn of the deduplication loop. */
  lemma NextSig(raw: seq<RelayerSig>, i: nat)
    requires i < |raw|
    ensures KeySet(raw[..i + 1]) == KeySet(raw[..i]) + {Lower(raw[i].pubkey)}
    ensures FirstPerKey(raw[..i + 1]) ==
            if Lower(raw[i].pubkey) in KeySet(raw[..i]) then FirstPerKey(raw[..i]) else FirstPerKey(raw[..i]) + [raw[i]]
  {
    assert raw[..i + 1] == raw[..i] + [raw[i]];
    assert raw[..i + 1][..i] == raw[..i];
    KeySetAppend(raw[..i], raw[i]);
  }

  // ---- Which signatures are picked --------------------------------------------------------

  /** The characters are the same up to ASCII case. */
  predicate SameLetter(a: char, b: char) {
    || a == b
    || ('A' <= a <= 'Z' && b as int == a as int - 'A' as int + 'a' as int)
    || ('A' <= b <= 'Z' && a as int == b as int - 'A' as int + 'a' as int)
  }

  /** Two casings of one public key. */
  predicate SameKey(a: string, b: string) {
    |a| == |b| && forall i :: 0 <= i < |a| ==> SameLetter(a[i], b[i])
  }

  /** Keys are told apart by their letters, not by their case. */
  lemma FoldedIffSameKey(a: string, b: string)
    ensures Lower(a) == Lower(b) <==> SameKey(a, b)
  {
    if Lower(a) == Lower(b) {
      forall i | 0 <= i < |a| ensures SameLetter(a[i], b[i]) {
        assert Lower(a)[i] == Lower(b)[i];
      }
    }
  }

  ghost predicate Verified(verify: Verifier, digest: Digest, responses: seq<SignerResponse>, j: nat) {
    j < |responses| && responses[j].Signed? && verify(responses[j].sig, digest)
  }

  /** `sigs` are the verified responses at the positions `at`, in node order. */
  ghost predicate PickedAt(verify: Verifier, digest: Digest, responses: seq<SignerResponse>, sigs: seq<RelayerSig>,
                           at: seq<nat>)
  {
    && |at| == |sigs|
    && (forall i, j :: 0 <= i < j < |at| ==> at[i] < at[j])
    && (forall i :: 0 <= i < |at| ==> Verified(verify, digest, responses, at[i]) && responses[at[i]].sig == sigs[i])
  }

  /** No two of the keys are casings of one. */
  ghost predicate NoSameKeys(sigs: seq<RelayerSig>) {
    forall i, j :: 0 <= i < j < |sigs| ==> !SameKey(sigs[i].pubkey, sigs[j].pubkey)
  }

  /** Every verified response before a picked one has the key of an earlier pick. */
  ghost predicate NoneMissed(verify: Verifier, digest: Digest, responses: seq<SignerResponse>, sigs: seq<RelayerSig>,
                             at: seq<nat>)
  {
    && |at| == |sigs|
    && forall i, j :: 0 <= i < |at| && 0 <= j < at[i] && Verified(verify, digest, responses, j) ==>
         KeyAmong(sigs[..i], responses[j].sig.pubkey)
  }

  /** The first verified signatures of their keys, in node order. */
  ghost predicate Picks(verify: Verifier, digest: Digest, responses: seq<SignerResponse>, sigs: seq<RelayerSig>,
                        at: seq<nat>)
  {
    PickedAt(verify, digest, responses, sigs, at) && NoSameKeys(sigs) && NoneMissed(verify, digest, responses, sigs, at)
  }

  ghost predicate KeyAmong(sigs: seq<RelayerSig>, pubkey: string) {
    exists i :: 0 <= i < |sigs| && SameKey(sigs[i].pubkey, pubkey)
  }

  lemma KeyAmongIsInKeySet(sigs: seq<RelayerSig>, pubkey: string)
    ensures KeyAmong(sigs, pubkey) <==> Lower(pubkey) in KeySet(sigs)
  {
    forall i | 0 <= i < |sigs| ensures SameKey(sigs[i].pubkey, pubkey) <==> Lower(sigs[i].pubkey) == Lower(pubkey) {
      FoldedIffSameKey(sigs[i].pubkey, pubkey);
    }
  }

  lemma {:induction false} VerifiedAppend(verify: Verifier, digest: Digest, a: seq<SignerResponse>, r: SignerResponse)
    ensures VerifiedSigs(verify, digest, a + [r]) ==
            VerifiedSigs(verify, digest, a) + if r.Signed? && verify(r.sig, digest) then [r.sig] else []
  {
    if a == [] {
      assert a + [r] == [r] && [r][1..] == [];
    } else {
      assert (a + [r])[1..] == a[1..] + [r];
      VerifiedAppend(verify, digest, a[1..], r);
    }
  }

  /** What one more response adds to the signatures collected. */
  lemma CollectedAppend(verify: Verifier, digest: Digest, a: seq<SignerResponse>, r: SignerResponse)
    ensures var sigs := Collected(verify, digest, a);
            Collected(verify, digest, a + [r]) ==
            if r.Signed? && verify(r.sig, digest) && !KeyAmong(sigs, r.sig.pubkey) then sigs + [r.sig] else sigs
  {
    var before := VerifiedSigs(verify, digest, a);
    VerifiedAppend(verify, digest, a, r);
    FirstPerKeyFacts(before);
    if r.Signed? {
      KeyAmongIsInKeySet(FirstPerKey(before), r.sig.pubkey);
      assert (before + [r.sig])[..|before|] == before;
    }
    assert before + [] == before;
  }

  /** Every verified response has the key of a picked one. */
  ghost predicate AllCovered(verify: Verifier, digest: Digest, responses: seq<SignerResponse>, sigs: seq<RelayerSig>) {
    forall j :: 0 <= j < |responses| && Verified(verify, digest, responses, j) ==>
      KeyAmong(sigs, responses[j].sig.pubkey)
  }

  /** The signatures collected are the first of each key, in node order, and none is left out. */
  lemma {:induction false} CollectedPicks(verify: Verifier, digest: Digest, responses: seq<SignerResponse>)
    returns (at: seq<nat>)
    ensures Picks(verify, digest, responses, Collected(verify, digest, responses), at)
    ensures AllCovered(verify, digest, responses, Collected(verify, digest, responses))
  {
    if responses == [] {
      at := [];
    } else {
      var n := |responses| - 1;
      var init, r := responses[..n], responses[n];
      assert responses == init + [r];
      at := CollectedPicks(verify, digest, init);
      CollectedAppend(verify, digest, init, r);
      var sigs := Collected(verify, digest, init);
      PickedStay(verify, digest, init, r, sigs, at);
      if r.Signed? && verify(r.sig, digest) && !KeyAmong(sigs, r.sig.pubkey) {
        PickOneMore(verify, digest, init, r, sigs, at);
        at := at + [n];
      }
    }
  }

  lemma PickedStay(verify: Verifier, digest: Digest, init: seq<SignerResponse>, r: SignerResponse,
                   sigs: seq<RelayerSig>, at: seq<nat>)
    requires Picks(verify, digest, init, sigs, at) && AllCovered(verify, digest, init, sigs)
    ensures Picks(verify, digest, init + [r], sigs, at)
    ensures !(r.Signed? && verify(r.sig, digest)) || KeyAmong(sigs, r.sig.pubkey) ==>
              AllCovered(verify, digest, init + [r], sigs)
  {
    var all := init + [r];
    forall j | 0 <= j < |init| ensures Verified(verify, digest, all, j) <==> Verified(verify, digest, init, j) {
      assert all[j] == init[j];
    }
  }

  lemma KeyAmongMore(sigs: seq<RelayerSig>, sig: RelayerSig, pubkey: string)
    ensures KeyAmong(sigs, pubkey) ==> KeyAmong(sigs + [sig], pubkey)
    ensures KeyAmong(sigs + [sig], sig.pubkey)
  {
    if i :| 0 <= i < |sigs| && SameKey(sigs[i].pubkey, pubkey) {
      assert SameKey((sigs + [sig])[i].pubkey, pubkey);
    }
    assert SameKey((sigs + [sig])[|sigs|].pubkey, sig.pubkey);
  }

  lemma OneMoreCovered(verify: Verifier, digest: Digest, init: seq<SignerResponse>, r: SignerResponse,
                       sigs: seq<RelayerSig>)
    requires AllCovered(verify, digest, init, sigs) && r.Signed?
    ensures AllCovered(verify, digest, init + [r], sigs + [r.sig])
  {
    var all := init + [r];
    forall j | 0 <= j < |all| && Verified(verify, digest, all, j) ensures KeyAmong(sigs + [r.sig], all[j].sig.pubkey) {
      if j < |init| { assert all[j] == init[j] && Verified(verify, digest, init, j); }
      KeyAmongMore(sigs, r.sig, all[j].sig.pubkey);
    }
  }

  lemma OneMoreNotMissed(verify: Verifier, digest: Digest, init: seq<SignerResponse>, r: SignerResponse,
                         sigs: seq<RelayerSig>, at: seq<nat>)
    requires NoneMissed(verify, digest, init, sigs, at) && AllCovered(verify, digest, init, sigs) && r.Signed?
    requires forall i :: 0 <= i < |at| ==> at[i] < |init|
    ensures NoneMissed(verify, digest, init + [r], sigs + [r.sig], at + [|init|])
  {
    var all, sigs', at' := init + [r], sigs + [r.sig], at + [|init|];
    forall i, j | 0 <= i < |at'| && 0 <= j < at'[i] && Verified(verify, digest, all, j)
      ensures KeyAmong(sigs'[..i], all[j].sig.pubkey)
    {
      assert all[j] == init[j] && Verified(verify, digest, init, j) && sigs'[..i] == sigs[..i];
      if i == |at| { assert sigs[..i] == sigs; }
    }
  }

  lemma OneMoreDiffers(sigs: seq<RelayerSig>, sig: RelayerSig)
    requires NoSameKeys(sigs) && !KeyAmong(sigs, sig.pubkey)
    ensures NoSameKeys(sigs + [sig])
  {
    assert forall i :: 0 <= i < |sigs| ==> !SameKey(sigs[i].pubkey, sig.pubkey);
  }

  lemma PickOneMore(verify: Verifier, digest: Digest, init: seq<SignerResponse>, r: SignerResponse,
                    sigs: seq<RelayerSig>, at: seq<nat>)
    requires Picks(verify, digest, init, sigs, at) && AllCovered(verify, digest, init, sigs)
    requires r.Signed? && verify(r.sig, digest) && !KeyAmong(sigs, r.sig.pubkey)
    ensures Picks(verify, digest, init + [r], sigs + [r.sig], at + [|init|])
    ensures AllCovered(verify, digest, init + [r], sigs + [r.sig])
  {
    PickedStay(verify, digest, init, r, sigs, at);
    OneMoreCovered(verify, digest, init, r, sigs);
    OneMoreNotMissed(verify, digest, init, r, sigs, at);
    OneMoreDiffers(sigs, r.sig);
  }

  lemma PicksPrefix(verify: Verifier, digest: Digest, responses: seq<SignerResponse>, sigs: seq<RelayerSig>,
                    at: seq<nat>, n: nat)
    requires Picks(verify, digest, responses, sigs, at) && n <= |sigs|
    ensures Picks(verify, digest, responses, sigs[..n], at[..n])
  {
    assert forall i :: 0 <= i <= n ==> sigs[..n][..i] == sigs[..i];
  }
}
