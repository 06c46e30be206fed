/** Tier-1 bundle integrity and the off-host membership binding, and what they pin together. */
module BundleVerification {
  import opened Common
  import opened Text
  import opened Checksums

  type Files = map<string, string>

  const CHECKSUMS := "checksums.sha256"
  const INSTALL := "install.sh"
  const ARTIFACTS := "artifacts.json"
  const POLICY := "telemetry.json"
  const POLICY_SUCCESSOR := "telemetry-policy.json"
  const TRUST_LIST := "trustlist.json"
  const TRUST_SIG := "trustlist.sig"

  datatype Member = Member(nodeId: string, wgPublicKey: string, bundleSha256: string)

  datatype TrustList = TrustList(epoch: int, members: seq<Member>)

  /**
   * The primitives verification calls out to: hex(sha256(x)), signature checks against the
   * bundle or pinned key, JSON readers, the canonical encoder, and the WireGuard peer reader.
   */
  datatype Primitives = Primitives(
    hash: string -> string,
    signatureOk: (string, string, string) -> bool,
    readTrustList: string -> Option<TrustList>,
    readSignature: string -> bool,
    canonical: TrustList -> Option<string>,
    operatorSigned: (string, string, string) -> bool,
    peerKeys: Files -> Option<set<string>>)

  datatype Verified = Verified(signed: bool, fileCount: nat)

  // ---------------------------------------------------------------- tier 1

  /** The signature rule: present means it must verify, pinned means it must be present. */
  predicate SignatureAccepted(pr: Primitives, files: Files, pinned: string) {
    if "bundle.sig" in files && "signing-pubkey.pem" in files then
      CHECKSUMS in files &&
      pr.signatureOk(files[CHECKSUMS], files["bundle.sig"],
                     if pinned != "" then pinned else files["signing-pubkey.pem"])
    else pinned == ""
  }

  predicate FileMatches(pr: Primitives, files: Files, listed: map<string, string>, path: string)
    requires path in listed
  {
    path in files && pr.hash(files[path]) == listed[path]
  }

  /** A file that carries authority is covered by the checksums whenever it is present. */
  predicate Covered(files: Files, listed: map<string, string>, path: string) {
    path in files ==> path in listed
  }

  predicate BundleAccepted(pr: Primitives, files: Files, pinned: string) {
    && CHECKSUMS in files && Parse(files[CHECKSUMS]).Some?
    && !(POLICY in files && POLICY_SUCCESSOR in files)
    && SignatureAccepted(pr, files, pinned)
    && var listed := Parse(files[CHECKSUMS]).value;
       && (forall path :: path in listed ==> FileMatches(pr, files, listed, path))
       && INSTALL in files && INSTALL in listed
       && Covered(files, listed, ARTIFACTS) && Covered(files, listed, POLICY)
       && Covered(files, listed, POLICY_SUCCESSOR)
  }

  /** VerifyBundle; `pinned` is empty when no signing key is configured. */
  method VerifyBundle(pr: Primitives, files: Files, pinned: string) returns (r: Option<Verified>)
    ensures r.Some? <==> BundleAccepted(pr, files, pinned)
    ensures r.Some? ==> r.value.fileCount == |Parse(files[CHECKSUMS]).value|
    ensures r.Some? ==> (r.value.signed <==> "bundle.sig" in files && "signing-pubkey.pem" in files)
  {
    if CHECKSUMS !in files { return None; }
    var parsed := ParseChecksums(files[CHECKSUMS]);
    if parsed.None? { return None; }
    var listed := parsed.value;
    if POLICY in files && POLICY_SUCCESSOR in files { return None; }
    var signed := false;
    if "bundle.sig" in files && "signing-pubkey.pem" in files {
      var key := if pinned != "" then pinned else files["signing-pubkey.pem"];
      if !pr.signatureOk(files[CHECKSUMS], files["bundle.sig"], key) { return None; }
      signed := true;
    } else if pinned != "" {
      return None;
    }
    var count := CheckListed(pr, files, listed);
    if count.None? { return None; }
    if INSTALL !in files || INSTALL !in listed { return None; }
    if ARTIFACTS in files && ARTIFACTS !in listed { return None; }
    if POLICY in files && POLICY !in listed { return None; }
    if POLICY_SUCCESSOR in files && POLICY_SUCCESSOR !in listed { return None; }
    return Some(Verified(signed, count.value));
  }

  /** The per-file loop, in whatever order the map yields its paths. */
  method CheckListed(pr: Primitives, files: Files, listed: map<string, string>) returns (count: Option<nat>)
    ensures count.Some? <==> forall path :: path in listed ==> FileMatches(pr, files, listed, path)
    ensures count.Some? ==> count.value == |listed|
  {
    var todo, checked := listed.Keys, 0;
    while todo != {}
      invariant todo <= listed.Keys
      invariant checked + |todo| == |listed|
      invariant forall path :: path in listed && path !in todo ==> FileMatches(pr, files, listed, path)
      decreases todo
    {
      var path :| path in todo;
      if path !in files || pr.hash(files[path]) != listed[path] {
        assert !FileMatches(pr, files, listed, path);
        return None;
      }
      todo := todo - {path};
      checked := checked + 1;
    }
    return Some(checked);
  }

  // ---------------------------------------------------------------- the keystone

  /** The pinned operator credential; an empty key means the keystone is off. */
  datatype Keystone = Keystone(nodeId: string, credential: string, alg: string)

  /** The last member entry with this node id, as the scan leaves it. */
  function SelfEntry(members: seq<Member>, nodeId: string): Option<Member> {
    if members == [] then None
    else if members[|members| - 1].nodeId == nodeId then Some(members[|members| - 1])
    else SelfEntry(members[..|members| - 1], nodeId)
  }

  function MemberKeys(members: seq<Member>): set<string> {
    set i | 0 <= i < |members| && members[i].wgPublicKey != "" :: members[i].wgPublicKey
  }

  predicate SignedList(pr: Primitives, files: Files, k: Keystone) {
    && TRUST_LIST in files && TRUST_SIG in files && CHECKSUMS in files
    && pr.readTrustList(files[TRUST_LIST]).Some?
    && pr.readSignature(files[TRUST_SIG])
    && pr.canonical(pr.readTrustList(files[TRUST_LIST]).value) == Some(files[TRUST_LIST])
    && pr.operatorSigned(files[TRUST_LIST], files[TRUST_SIG], k.credential)
  }

  /** The signed list names this node and binds the digest of this bundle's checksums. */
  predicate BindsBundle(pr: Primitives, files: Files, k: Keystone) {
    && SignedList(pr, files, k)
    && var tl := pr.readTrustList(files[TRUST_LIST]).value;
       var self := SelfEntry(tl.members, k.nodeId);
       && self.Some? && self.value.bundleSha256 != ""
       && EqualFold(pr.hash(files[CHECKSUMS]), self.value.bundleSha256)
       && pr.peerKeys(files).Some?
       && forall key :: key in pr.peerKeys(files).value ==> key in MemberKeys(tl.members)
  }

  /** VerifyMembership: the accepted epoch, zero when the keystone is off. */
  method VerifyMembership(pr: Primitives, files: Files, k: Keystone, prevEpoch: int) returns (r: Option<int>)
    ensures k.credential == "" ==> r == Some(0)
    ensures k.credential != "" ==>
              (r.Some? <==> BindsBundle(pr, files, k) && pr.readTrustList(files[TRUST_LIST]).value.epoch >= prevEpoch)
    ensures k.credential != "" && r.Some? ==>
              r.value == pr.readTrustList(files[TRUST_LIST]).value.epoch && r.value >= prevEpoch
  {
    if k.credential == "" { return Some(0); }
    if TRUST_LIST !in files || TRUST_SIG !in files || CHECKSUMS !in files { return None; }
    var parsed := pr.readTrustList(files[TRUST_LIST]);
    if parsed.None? || !pr.readSignature(files[TRUST_SIG]) { return None; }
    var tl := parsed.value;
    if pr.canonical(tl) != Some(files[TRUST_LIST]) { return None; }
    if !pr.operatorSigned(files[TRUST_LIST], files[TRUST_SIG], k.credential) { return None; }
    var self, members := ScanMembers(tl.members, k.nodeId);
    if self.None? || self.value.bundleSha256 == "" { return None; }
    if !EqualFold(pr.hash(files[CHECKSUMS]), self.value.bundleSha256) { return None; }
    var peers := pr.peerKeys(files);
    if peers.None? || !(peers.value <= members) { return None; }
    if tl.epoch < prevEpoch { return None; }
    return Some(tl.epoch);
  }

  /** One scan finds this node's entry and indexes the signed public keys. */
  method ScanMembers(members: seq<Member>, nodeId: string) returns (self: Option<Member>, keys: set<string>)
    ensures self == SelfEntry(members, nodeId)
    ensures keys == MemberKeys(members)
  {
    self, keys := None, {};
    var i := 0;
    while i < |members|
      invariant 0 <= i <= |members|
      invariant self == SelfEntry(members[..i], nodeId)
      invariant keys == MemberKeys(members[..i])
    {
      var init := members[..i];
      var upTo := members[..i + 1];
      assert upTo[..|upTo| - 1] == init;
      if members[i].nodeId == nodeId { self := Some(members[i]); }
      MemberKeysSnoc(init, members[i]);
      assert upTo == init + [members[i]];
      if members[i].wgPublicKey != "" { keys := keys + {members[i].wgPublicKey}; }
      i := i + 1;
    }
    assert members[..i] == members;
  }

  lemma MemberKeysSnoc(ms: seq<Member>, m: Member)
    ensures MemberKeys(ms + [m]) == MemberKeys(ms) + (if m.wgPublicKey != "" then {m.wgPublicKey} else {})
  {
    var all := ms + [m];
    forall key | key in MemberKeys(ms)
      ensures key in MemberKeys(all)
    {
      var i :| 0 <= i < |ms| && ms[i].wgPublicKey != "" && ms[i].wgPublicKey == key;
      assert all[i].wgPublicKey == key;
    }
    if m.wgPublicKey != "" { assert all[|ms|].wgPublicKey == m.wgPublicKey; }
  }

  // ---------------------------------------------------------------- what one signature pins

  predicate Accepted(pr: Primitives, files: Files, pinned: string, k: Keystone) {
    BundleAccepted(pr, files, pinned) && BindsBundle(pr, files, k)
  }

  /** hex.EncodeToString output. */
  ghost predicate LowerHex(pr: Primitives) {
    forall x :: Lower(pr.hash(x)) == pr.hash(x)
  }

  /** The two bundles hold, under one path, different contents with the same hash. */
  predicate Colliding(pr: Primitives, a: Files, b: Files) {
    exists path :: path in a && path in b && a[path] != b[path] && pr.hash(a[path]) == pr.hash(b[path])
  }

  predicate SameFile(a: Files, b: Files, path: string) {
    (path in a <==> path in b) && (path in a ==> a[path] == b[path])
  }

  /**
   * Two bundles accepted for one node under one signed trust list have the same checksums
   * file, and the same presence and content of every checksummed file, of install.sh, of
   * artifacts.json and of both policy files; otherwise they themselves exhibit a SHA-256
   * collision between two versions of one file.
   */
  lemma OneSignatureOneBundle(pr: Primitives, a: Files, b: Files, pinned: string, k: Keystone)
    requires LowerHex(pr)
    requires Accepted(pr, a, pinned, k) && Accepted(pr, b, pinned, k)
    requires a[TRUST_LIST] == b[TRUST_LIST]
    ensures Colliding(pr, a, b) ||
            (&& a[CHECKSUMS] == b[CHECKSUMS]
             && (forall path :: path in Parse(a[CHECKSUMS]).value ==> SameFile(a, b, path))
             && SameFile(a, b, INSTALL) && SameFile(a, b, ARTIFACTS)
             && SameFile(a, b, POLICY) && SameFile(a, b, POLICY_SUCCESSOR))
  {
    if !Colliding(pr, a, b) {
      assert pr.hash(a[CHECKSUMS]) == pr.hash(b[CHECKSUMS]);
      var listed := Parse(a[CHECKSUMS]).value;
      forall path | path in listed
        ensures SameFile(a, b, path)
      {
        assert FileMatches(pr, a, listed, path) && FileMatches(pr, b, listed, path);
      }
    }
  }

  /** The files whose mere presence or content the verdict looks at. */
  const INSPECTED := {CHECKSUMS, INSTALL, ARTIFACTS, POLICY, POLICY_SUCCESSOR, "bundle.sig", "signing-pubkey.pem"}

  /** The two file sets agree on everything inspected and on every listed file. */
  predicate SameInspected(a: Files, b: Files) {
    && (forall path :: path in INSPECTED ==> SameFile(a, b, path))
    && (CHECKSUMS in a && Parse(a[CHECKSUMS]).Some? ==>
          forall path :: path in Parse(a[CHECKSUMS]).value ==> SameFile(a, b, path))
  }

  /** The binding is to the listing: accepted or refused, no other file changes the verdict. */
  lemma UnlistedFileIsNotBound(pr: Primitives, a: Files, b: Files, pinned: string)
    requires SameInspected(a, b)
    ensures BundleAccepted(pr, a, pinned) <==> BundleAccepted(pr, b, pinned)
  {
    assert SameFile(a, b, CHECKSUMS) && SameFile(a, b, INSTALL) && SameFile(a, b, ARTIFACTS);
    assert SameFile(a, b, POLICY) && SameFile(a, b, POLICY_SUCCESSOR);
    assert SameFile(a, b, "bundle.sig") && SameFile(a, b, "signing-pubkey.pem");
    if CHECKSUMS in a && Parse(a[CHECKSUMS]).Some? {
      var listed := Parse(a[CHECKSUMS]).value;
      forall path | path in listed ensures FileMatches(pr, a, listed, path) <==> FileMatches(pr, b, listed, path) {
        assert SameFile(a, b, path);
      }
    }
  }
}
