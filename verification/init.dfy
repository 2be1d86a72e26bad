/** Application start-up (src/lib/init.ts): an identity handed over in the
    URL fragment is imported first; otherwise, or when that fails, the
    account is loaded from the device. */
module Init {
  import opened Wrappers
  import opened Strings
  import opened Manifest
  import opened Account

  const SyncMarker := "#sync="

  /** The start-up takes the sync branch for a `#sync=` fragment in a browser. */
  predicate SyncRequested(inBrowser: bool, hash: string) {
    inBrowser && StartsWith(hash, SyncMarker)
  }

  /** The sync branch reaches the import: the text after the marker
      percent-decodes (`decode` is `decodeURIComponent`, null when it
      throws). */
  predicate ImportAttempted(inBrowser: bool, hash: string, decode: string -> Option<string>) {
    SyncRequested(inBrowser, hash) && decode(hash[|SyncMarker|..]).Some?
  }

  /** `initialize`. `hash` is the URL fragment, `parse` is the payload's JSON
      parser (null when it throws) and `accepted` whether the platform
      imports the private key. Returns the fragment left in the address bar
      and whether the app redirected home after a successful import. */
  method Initialize(d: Device, inBrowser: bool, hash: string,
                    decode: string -> Option<string>,
                    parse: string -> Option<SyncData>, accepted: bool)
    returns (hashAfter: string, redirected: bool)
    modifies d
    // The fragment is cleared on every sync path, and kept otherwise.
    ensures hashAfter == if SyncRequested(inBrowser, hash) then "" else hash
    ensures redirected <==>
      && ImportAttempted(inBrowser, hash, decode)
      && WellFormedPayload(parse(decode(hash[|SyncMarker|..]).value)) && accepted
    ensures redirected ==>
      var p := parse(decode(hash[|SyncMarker|..]).value).value;
      && d.keys == Some(Imported(p.privateKeyJwk.value))
      && d.pointer == Some(p.manifestCid.value)
      && d.session == SignedIn(PublicOf(p.privateKeyJwk.value).n)
    // A failed import clears the identity, and loading then finds no keys.
    ensures ImportAttempted(inBrowser, hash, decode) && !redirected ==>
      d.keys.None? && d.pointer.None? && d.session == SignedOut(None)
    // Without an import the account is loaded from what the device held.
    ensures !ImportAttempted(inBrowser, hash, decode) ==> d.LoadedFrom(old(d.keys), old(d.pointer))
    ensures !d.session.isLoading
  {
    d.session := d.session.(isLoading := true, error := None);
    hashAfter := hash;
    redirected := false;
    if SyncRequested(inBrowser, hash) {
      var decoded := decode(hash[|SyncMarker|..]);
      if decoded.Some? {
        var ok := d.ImportCredentialsFromSync(parse(decoded.value), accepted);
        hashAfter := "";
        if ok {
          redirected := true;
          d.session := d.session.(isLoading := false);
          return;
        }
      } else {
        hashAfter := "";
      }
    }
    d.LoadAccount();
    d.session := d.session.(isLoading := false);
  }
}
