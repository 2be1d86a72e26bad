/** The account subsystem of src/lib/auth/account.ts: a small state machine
    over the device's key slot, the manifest pointer kept in local storage
    under `myseelia-manifest-cid`, the shared content-addressed backend and
    the session record observed by the UI. */
module Account {
  import opened Wrappers
  import opened Manifest
  import opened Ipfs

  const CorruptedState := "Account state corrupted (missing manifest CID). Please register again."
  const RegistrationFailed := "Registration failed."
  const SyncFailed := "Sync failed."

  /** The session store's fields (`backupCreated` is always null and omitted). */
  datatype Session = Session(
    username: Option<string>,
    isAuthenticated: bool,
    isLoading: bool,
    error: Option<string>)

  function SignedIn(user: string): Session {
    Session(Some(user), true, false, None)
  }

  function SignedOut(error: Option<string>): Session {
    Session(None, false, false, error)
  }

  /** The parsed sync payload; either member may be missing. */
  datatype SyncData = SyncData(privateKeyJwk: Option<PrivateJwk>, manifestCid: Option<string>)

  /** The checks `importCredentialsFromSync` applies to a payload: it parsed,
      and both members are present and truthy. */
  predicate WellFormedPayload(parsed: Option<SyncData>) {
    && parsed.Some?
    && parsed.value.privateKeyJwk.Some?
    && parsed.value.manifestCid.Some?
    && parsed.value.manifestCid.value != ""
  }

  /** The key pair stored after importing a private JWK: the public half is
      re-derived from it. Any matched pair is recovered from its private half
      alone, which is what makes the sync payload enough to move an
      identity. */
  function Imported(p: PrivateJwk): (kp: KeyPair)
    ensures Matched(kp) && kp.privateJwk == p
    ensures forall other: KeyPair :: Matched(other) && other.privateJwk == p ==> other == kp
  {
    KeyPair(PublicOf(p), p)
  }

  class Device {
    /** The key slot (IndexedDB). */
    var keys: Option<KeyPair>
    /** The manifest pointer (local storage). */
    var pointer: Option<Cid>
    var session: Session
    /** The pinning service and gateway, shared by every device. */
    const backend: Backend

    constructor (backend: Backend)
      ensures keys.None? && pointer.None? && this.backend == backend
      ensures session == Session(None, false, true, None)
    {
      keys := None;
      pointer := None;
      session := Session(None, false, true, None);
      this.backend := backend;
    }

    /** The manifest the manifest pointer designates, when the device holds keys and
        the pinned document passes the shape check. */
    function Current(): Option<UserManifest>
      reads this, backend
    {
      if keys.Some? && pointer.Some? && pointer.value in backend.docs then
        Decode(backend.docs[pointer.value])
      else
        None
    }

    /** The three outcomes of `loadAccount`, relating the state now to the
        key slot `k0` and pointer `p0` it started from. */
    ghost predicate LoadedFrom(k0: Option<KeyPair>, p0: Option<Cid>)
      reads this
    {
      && (k0.None? ==>
            keys.None? && pointer.None? && session == SignedOut(None))
      && (k0.Some? && p0.None? ==>
            keys.None? && pointer.None? && session == SignedOut(Some(CorruptedState)))
      && (k0.Some? && p0.Some? ==>
            keys == k0 && pointer == p0 && session == SignedIn(k0.value.publicJwk.n))
    }

    /** `loadAccount`: without keys the user is signed out with no error and
        the manifest pointer is removed; keys without a pointer is a corrupted state,
        so the keys are cleared; with both the user is signed in under the
        public key's modulus. The backend is never consulted. */
    method LoadAccount()
      modifies this
      ensures LoadedFrom(old(keys), old(pointer))
    {
      if keys.None? {
        session := SignedOut(None);
        pointer := None;
        return;
      }
      if pointer.None? {
        keys := None;
        session := SignedOut(Some(CorruptedState));
        return;
      }
      session := SignedIn(keys.value.publicJwk.n);
    }

    /** `register`. `generated` is the outcome of generating, storing and
        exporting a fresh key pair (None when any of these throws); both halves
        are exported from the one generated pair, so they match. `reachable`
        is whether the pinning service accepts the initial manifest. */
    method Register(generated: Option<KeyPair>, reachable: bool) returns (ok: bool)
      requires backend.Valid()
      requires generated.Some? ==> Matched(generated.value)
      modifies this, backend
      ensures backend.Valid() && Extends(old(backend.docs), backend.docs)
      // Held keys stay matched key pairs.
      ensures (old(keys).Some? ==> Matched(old(keys).value)) ==> (keys.Some? ==> Matched(keys.value))
      // Existing keys: no key generation, just the outcome of loadAccount.
      ensures old(keys).Some? ==>
        && LoadedFrom(old(keys), old(pointer))
        && ok == session.isAuthenticated
        && backend.docs == old(backend.docs)
      // Key generation failed: everything is cleared.
      ensures old(keys).None? && generated.None? ==>
        && !ok && keys.None? && pointer.None?
        && session == SignedOut(Some(RegistrationFailed))
        && backend.docs == old(backend.docs)
      // Publishing the initial manifest failed: only the key slot is cleared.
      ensures old(keys).None? && generated.Some? && !reachable ==>
        && !ok && keys.None? && pointer == old(pointer) && session == old(session)
        && backend.docs == old(backend.docs)
      // Success: the empty manifest is published and the manifest pointer designates it.
      ensures old(keys).None? && generated.Some? && reachable ==>
        && ok && keys == generated
        && pointer == Some(backend.address(Encode(InitialManifest(generated.value.publicJwk))))
        && Current() == Some(InitialManifest(generated.value.publicJwk))
        && session == SignedIn(generated.value.publicJwk.n)
    {
      if keys.Some? {
        LoadAccount();
        ok := session.isAuthenticated;
        return;
      }
      if generated.None? {
        keys := None;
        pointer := None;
        session := SignedOut(Some(RegistrationFailed));
        ok := false;
        return;
      }
      var kp := generated.value;
      keys := Some(kp);
      var initial := InitialManifest(kp.publicJwk);
      var cid := backend.Put(Encode(initial), reachable);
      if cid.None? {
        keys := None;
        ok := false;
        return;
      }
      pointer := cid;
      session := SignedIn(kp.publicJwk.n);
      ok := true;
    }

    /** `logout`: the key slot and the manifest pointer are emptied and the session is
        reset. The new state does not depend on the old one, so a second
        call changes nothing. */
    method Logout()
      modifies this
      ensures keys.None? && pointer.None? && session == SignedOut(None)
    {
      keys := None;
      pointer := None;
      session := SignedOut(None);
    }

    /** `exportCredentialsForSync`: available only with both keys and pointer;
        it carries the private key and exactly the current pointer. */
    method ExportCredentialsForSync() returns (r: Option<SyncData>)
      ensures r.Some? <==> keys.Some? && pointer.Some?
      ensures r.Some? ==>
        r.value.privateKeyJwk == Some(keys.value.privateJwk) &&
        r.value.manifestCid == Some(pointer.value)
    {
      if keys.None? || pointer.None? {
        return None;
      }
      r := Some(SyncData(Some(keys.value.privateJwk), Some(pointer.value)));
    }

    /** `importCredentialsFromSync`. `parsed` is the result of parsing the
        payload text (None when it does not parse) and `accepted` whether the
        platform imports the private key. A well-formed, accepted payload
        replaces the identity and sets the manifest pointer to its CID; every failure
        leaves the key slot and the manifest pointer empty. */
    method ImportCredentialsFromSync(parsed: Option<SyncData>, accepted: bool) returns (ok: bool)
      modifies this
      ensures ok <==> WellFormedPayload(parsed) && accepted
      ensures ok ==>
        && keys == Some(Imported(parsed.value.privateKeyJwk.value))
        && Matched(keys.value)
        && pointer == Some(parsed.value.manifestCid.value)
        && session == SignedIn(PublicOf(parsed.value.privateKeyJwk.value).n)
      ensures !ok ==> keys.None? && pointer.None? && session == SignedOut(Some(SyncFailed))
    {
      ok := false;
      if WellFormedPayload(parsed) && accepted {
        var data := parsed.value;
        keys := Some(Imported(data.privateKeyJwk.value));
        pointer := Some(data.manifestCid.value);
        LoadAccount();
        ok := session.isAuthenticated;
      }
      if !ok {
        keys := None;
        pointer := None;
        session := SignedOut(Some(SyncFailed));
      }
    }

    /** `getCurrentManifest`: null without keys, without a pointer, or when the
        pinned document is missing or lacks `publicKey` or `files`; otherwise
        the snapshot the manifest pointer designates. */
    method GetCurrentManifest() returns (m: Option<UserManifest>)
      ensures m.Some? <==>
        && keys.Some? && pointer.Some? && pointer.value in backend.docs
        && backend.docs[pointer.value].Object?
        && backend.docs[pointer.value].publicKey.Some?
        && backend.docs[pointer.value].files.Some?
      ensures m.Some? ==> Encode(m.value) == backend.docs[pointer.value]
      ensures m == Current()
    {
      if keys.None? {
        return None;
      }
      if pointer.None? {
        return None;
      }
      var fetched := backend.Get(pointer.value);
      if fetched.None? {
        return None;
      }
      m := Decode(fetched.value);
    }

    /** `updateManifest`: refused without keys or when the manifest's public
        key is not the device's; otherwise the manifest is published and the
        pointer moves to the new CID only if publishing succeeded. */
    method UpdateManifest(m: UserManifest, reachable: bool) returns (r: Option<Cid>)
      requires backend.Valid()
      modifies this, backend
      ensures backend.Valid() && Extends(old(backend.docs), backend.docs)
      ensures keys == old(keys) && session == old(session)
      ensures r.Some? <==> old(keys).Some? && m.publicKey == old(keys).value.publicJwk && reachable
      ensures r.Some? ==>
        r.value == backend.address(Encode(m)) && pointer == r && Current() == Some(m)
      ensures r.None? ==> pointer == old(pointer) && backend.docs == old(backend.docs)
    {
      if keys.None? {
        return None;
      }
      if m.publicKey != keys.value.publicJwk {
        return None;
      }
      r := backend.Put(Encode(m), reachable);
      if r.Some? {
        pointer := r;
      }
    }
  }

  /** A failed mutation leaves the current manifest as it was: the manifest pointer is
      unchanged and pinned snapshots never change. */
  lemma CurrentStable(d: Device, k0: Option<KeyPair>, p0: Option<Cid>, docs0: map<Cid, Doc>)
    requires d.keys == k0 && d.pointer == p0 && Extends(docs0, d.backend.docs)
    requires p0.Some? ==> p0.value in docs0
    ensures d.Current() == (if k0.Some? && p0.Some? then Decode(docs0[p0.value]) else None)
  {
  }

  /** Moving an identity between devices: what one device exports, another
      imports, after which both see the same keys and the same manifest. */
  method TransferIdentity(source: Device, target: Device, accepted: bool) returns (ok: bool)
    requires source != target && source.backend == target.backend
    requires source.keys.Some? ==> Matched(source.keys.value)
    modifies target
    ensures ok <==> source.keys.Some? && source.pointer.Some? && accepted
    ensures ok ==>
      target.keys == source.keys && target.pointer == source.pointer &&
      target.Current() == source.Current()
  {
    var payload := source.ExportCredentialsForSync();
    if payload.None? {
      return false;
    }
    ok := target.ImportCredentialsFromSync(payload, accepted);
  }
}
