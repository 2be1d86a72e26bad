/** The user manifest: the index from logical paths to encrypted-file records,
    and the JSON shape in which it is published to the content-addressed
    backend (src/lib/auth/account.ts, types ManifestFileEntry and UserManifest). */
module Manifest {
  import opened Wrappers

  /** A content identifier returned by the pinning service. account.ts tests
      identifiers for truthiness, so the empty string never serves as one. */
  type Cid = s: string | s != "" witness "Qm"

  /** Public half of an RSA-OAEP key in JWK form; `n` (the modulus) doubles as
      the user's display name. */
  datatype Jwk = Jwk(kty: string, n: string, e: string)

  /** Private half of the key in JWK form, as carried by the sync payload. */
  datatype PrivateJwk = PrivateJwk(kty: string, n: string, e: string, d: string)

  /** A key pair as held in the device's key slot, with the JWK exports of
      both halves (exporting is a lookup here, see README). */
  datatype KeyPair = KeyPair(publicJwk: Jwk, privateJwk: PrivateJwk)

  /** The public JWK that importing a private JWK re-derives. */
  function PublicOf(p: PrivateJwk): Jwk {
    Jwk(p.kty, p.n, p.e)
  }

  /** A key pair whose public half is the one its private half determines. */
  predicate Matched(kp: KeyPair) {
    kp.publicJwk == PublicOf(kp.privateJwk)
  }

  /** One file's record: where its ciphertext lives, the IV and wrapped
      content key, and plain metadata. `mime` is the `type` field of notes.ts and account-settings.ts. */
  datatype Entry = Entry(
    cid: Cid,
    iv: string,
    key: string,
    name: string,
    mime: string,
    size: nat,
    ctime: int,
    mtime: int)

  type Files = map<string, Entry>

  datatype UserManifest = UserManifest(publicKey: Jwk, files: Files)

  /** What encrypting and pinning one file's content yields: the CID of the
      ciphertext, its IV and the content key wrapped with the user's public
      key (both base64). */
  datatype Sealed = Sealed(cid: Cid, iv: string, key: string)

  /** The manifest with `path` bound to `e` (the spread-and-assign notes.ts and
      account-settings.ts use for every file write). */
  function WithFile(m: UserManifest, path: string, e: Entry): (r: UserManifest)
    ensures r.publicKey == m.publicKey
    ensures path in r.files && r.files[path] == e
    ensures forall p :: p != path ==> (p in r.files <==> p in m.files)
    ensures forall p :: p != path && p in m.files ==> r.files[p] == m.files[p]
    ensures |r.files| == if path in m.files then |m.files| else |m.files| + 1
  {
    UserManifest(m.publicKey, m.files[path := e])
  }

  /** The manifest without `path` (the `delete` of notes.ts's `deleteNote`). */
  function WithoutFile(m: UserManifest, path: string): (r: UserManifest)
    ensures r.publicKey == m.publicKey
    ensures path !in r.files
    ensures forall p :: p != path ==> (p in r.files <==> p in m.files)
    ensures forall p :: p in r.files ==> r.files[p] == m.files[p]
    ensures |r.files| == if path in m.files then |m.files| - 1 else |m.files|
  {
    UserManifest(m.publicKey, m.files - {path})
  }

  /** The manifest every registration publishes first. */
  function InitialManifest(pk: Jwk): UserManifest {
    UserManifest(pk, map[])
  }

  /** A JSON value as fetched back from the gateway: either an object, whose
      `publicKey` and `files` members may be missing, or something else. */
  datatype Doc = Object(publicKey: Option<Jwk>, files: Option<Files>) | NotObject

  /** The JSON a manifest is serialised to when it is pinned. */
  function Encode(m: UserManifest): (d: Doc)
    ensures d.Object? && d.publicKey.Some? && d.files.Some?
  {
    Object(Some(m.publicKey), Some(m.files))
  }

  /** The shape check applied to a fetched manifest: an object that has both
      `publicKey` and `files`; anything else is rejected. */
  function Decode(d: Doc): (r: Option<UserManifest>)
    ensures r.Some? <==> d.Object? && d.publicKey.Some? && d.files.Some?
    ensures r.Some? ==> Encode(r.value) == d
  {
    if d.Object? && d.publicKey.Some? && d.files.Some? then
      Some(UserManifest(d.publicKey.value, d.files.value))
    else
      None
  }

  /** Publishing and fetching back returns the same manifest. */
  lemma DecodeEncode(m: UserManifest)
    ensures Decode(Encode(m)) == Some(m)
  {
  }
}
