/** The content-addressed backend (Pinata pinning plus an IPFS gateway) as
    the rest of the core sees it, and the gateway URL normaliser
    (src/lib/ipfs.ts). */
module Ipfs {
  import opened Wrappers
  import opened Strings
  import opened Manifest

  const HttpsPrefix := "https://"
  const IpfsSuffix := "/ipfs/"
  const DefaultGateway := "https://gateway.pinata.cloud/ipfs/"

  /** The scheme the normaliser adds to a custom gateway, if any. */
  function SchemeFor(g: string): string {
    if StartsWith(g, HttpsPrefix) then "" else HttpsPrefix
  }

  /** The path the normaliser appends to a custom gateway, if any. */
  function PathFor(g: string): string {
    if EndsWith(g, IpfsSuffix) then "" else IpfsSuffix
  }

  lemma NormalisedShape(g: string)
    ensures StartsWith(SchemeFor(g) + g + PathFor(g), HttpsPrefix)
    ensures EndsWith(SchemeFor(g) + g + PathFor(g), IpfsSuffix)
  {
    var prefix, suffix := SchemeFor(g), PathFor(g);
    if prefix == "" {
      assert prefix + g + suffix == g + suffix;
      StartsWithLeft(g, suffix, HttpsPrefix);
    } else {
      assert prefix + g + suffix == HttpsPrefix + (g + suffix);
      StartsWithConcat(HttpsPrefix, g + suffix);
    }
    if suffix == "" {
      assert prefix + g + suffix == prefix + g;
      EndsWithRight(prefix, g, IpfsSuffix);
    } else {
      EndsWithConcat(prefix + g, IpfsSuffix);
    }
  }

  /** The gateway base URL built from the optional custom gateway setting:
      an unset or empty setting selects the public gateway; otherwise the
      scheme and the `/ipfs/` path are added when missing. */
  function GatewayUrl(custom: Option<string>): (url: string)
    ensures custom.None? || custom.value == "" ==> url == DefaultGateway
    ensures StartsWith(url, HttpsPrefix) && EndsWith(url, IpfsSuffix)
    ensures custom.Some? && custom.value != "" ==>
      exists p, q ::
        && (p == "" <==> StartsWith(custom.value, HttpsPrefix))
        && (p != "" ==> p == HttpsPrefix)
        && (q == "" <==> EndsWith(custom.value, IpfsSuffix))
        && (q != "" ==> q == IpfsSuffix)
        && url == p + custom.value + q
  {
    if custom.Some? && custom.value != "" then
      var g := custom.value;
      NormalisedShape(g);
      SchemeFor(g) + g + PathFor(g)
    else
      assert DefaultGateway[..|HttpsPrefix|] == HttpsPrefix;
      assert DefaultGateway[|DefaultGateway| - |IpfsSuffix|..] == IpfsSuffix;
      DefaultGateway
  }

  /** A setting that already has the scheme and the path comes back unchanged. */
  lemma NormalisedUnchanged(g: string)
    requires g != "" && StartsWith(g, HttpsPrefix) && EndsWith(g, IpfsSuffix)
    ensures GatewayUrl(Some(g)) == g
  {
    var url := GatewayUrl(Some(g));
    var p, q :| && (p == "" <==> StartsWith(g, HttpsPrefix))
                && (q == "" <==> EndsWith(g, IpfsSuffix))
                && url == p + g + q;
    assert p + g + q == g;
  }

  /** Normalising a normalised URL changes nothing. */
  lemma GatewayUrlIdempotent(custom: Option<string>)
    ensures GatewayUrl(Some(GatewayUrl(custom))) == GatewayUrl(custom)
  {
    NormalisedUnchanged(GatewayUrl(custom));
  }

  /** Snapshots already pinned keep their content: `later` only adds. */
  ghost predicate Extends(earlier: map<Cid, Doc>, later: map<Cid, Doc>) {
    forall c :: c in earlier ==> c in later && later[c] == earlier[c]
  }

  /** The pinning service and gateway. Identifiers are derived from content:
      `address` is the identifier the service gives a document, and distinct
      documents get distinct identifiers. */
  class Backend {
    var docs: map<Cid, Doc>
    const address: Doc -> Cid

    ghost predicate Valid()
      reads this
    {
      && (forall d1: Doc, d2: Doc :: address(d1) == address(d2) ==> d1 == d2)
      && (forall c :: c in docs ==> address(docs[c]) == c)
    }

    constructor (address: Doc -> Cid, initial: map<Cid, Doc>)
      requires forall d1: Doc, d2: Doc :: address(d1) == address(d2) ==> d1 == d2
      requires forall c :: c in initial ==> address(initial[c]) == c
      ensures Valid() && this.address == address && docs == initial
    {
      this.address := address;
      docs := initial;
    }

    /** `pinJsonToIpfs`: when the service is reachable the document is stored
        under its content address, which is returned; otherwise nothing is
        stored and the result is null. Existing snapshots never change. */
    method Put(doc: Doc, reachable: bool) returns (r: Option<Cid>)
      requires Valid()
      modifies this
      ensures Valid()
      ensures r == if reachable then Some(address(doc)) else None
      ensures docs == if reachable then old(docs)[address(doc) := doc] else old(docs)
      ensures Extends(old(docs), docs)
    {
      if reachable {
        docs := docs[address(doc) := doc];
        r := Some(address(doc));
      } else {
        r := None;
      }
    }

    /** `fetchJsonFromIpfs`: the document pinned under `c`, or null. */
    function Get(c: Cid): (r: Option<Doc>)
      reads this
      ensures r.Some? <==> c in docs
      ensures r.Some? ==> docs[c] == r.value
    {
      if c in docs then Some(docs[c]) else None
    }
  }
}
