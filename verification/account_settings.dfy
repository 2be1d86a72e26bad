/** The user's avatar, kept as one encrypted file under
    `private/settings/avatar.<ext>` in the user manifest
    (src/lib/account-settings.ts). */
module AccountSettings {
  import opened Wrappers
  import opened Strings
  import opened Manifest
  import opened Ipfs
  import opened Account

  const AvatarPrefix := "private/settings/avatar"
  const DefaultExtension := "png"
  /** The extensions the avatar lookup probes, in order. */
  const ProbedExtensions := ["png", "jpg", "jpeg", "gif", "webp"]
  /** Five megabytes: `size / (1024 * 1024) > 5` holds exactly when the
      size exceeds this many bytes. */
  const SizeLimit := 5 * 1024 * 1024

  /** The text after the last '.', or all of `s` when it has none
      (`s.split('.').pop()`). */
  function AfterLastDot(s: string): (r: string)
    ensures |r| <= |s| && r == s[|s| - |r|..]
    ensures '.' !in r
    ensures |r| == |s| || s[|s| - |r| - 1] == '.'
  {
    if s == "" then ""
    else if s[|s| - 1] == '.' then ""
    else
      var r := AfterLastDot(s[..|s| - 1]) + [s[|s| - 1]];
      assert s == s[..|s| - 1] + [s[|s| - 1]];
      r
  }

  /** The manifest path for an uploaded image: the prefix, a dot and the
      name's extension, or `png` when the text after the last dot is empty. */
  function AvatarPath(name: string): (p: string)
    ensures AfterLastDot(name) != "" ==> p == AvatarPrefix + "." + AfterLastDot(name)
    ensures AfterLastDot(name) == "" ==> p == AvatarPrefix + "." + DefaultExtension
    ensures IsAvatarPath(p)
  {
    var ext := AfterLastDot(name);
    var p := AvatarPrefix + "." + (if ext == "" then DefaultExtension else ext);
    StartsWithConcat(AvatarPrefix + ".", if ext == "" then DefaultExtension else ext);
    p
  }

  /** The paths the upload rule can produce. */
  predicate IsAvatarPath(p: string) {
    StartsWith(p, AvatarPrefix + ".")
  }

  lemma AvatarPathPrefixed(p: string)
    requires IsAvatarPath(p)
    ensures StartsWith(p, AvatarPrefix)
  {
    assert p[..|AvatarPrefix|] == (p[..|AvatarPrefix| + 1])[..|AvatarPrefix|];
  }

  function Probe(ext: string): string {
    AvatarPrefix + "." + ext
  }

  // ---------------------------------------------------------------------
  // Lookup

  /** The lookup as written: the first probed extension whose path is in
      the manifest. */
  method FindAvatarAsWritten(files: Files) returns (found: Option<string>)
    ensures found.None? <==>
      forall i :: 0 <= i < |ProbedExtensions| ==> Probe(ProbedExtensions[i]) !in files
    ensures found.Some? ==> exists i :: FirstProbeAt(files, i) && found.value == Probe(ProbedExtensions[i])
  {
    found := None;
    for i := 0 to |ProbedExtensions|
      invariant found.None? ==> forall j :: 0 <= j < i ==> Probe(ProbedExtensions[j]) !in files
      invariant found.None?
    {
      var path := Probe(ProbedExtensions[i]);
      if path in files {
        assert FirstProbeAt(files, i);
        return Some(path);
      }
    }
  }

  /** The `i`th probe is the first one present. */
  predicate FirstProbeAt(files: Files, i: int) {
    && 0 <= i < |ProbedExtensions|
    && Probe(ProbedExtensions[i]) in files
    && forall j :: 0 <= j < i ==> Probe(ProbedExtensions[j]) !in files
  }

  /** The lookup with the upload rule's paths: the probed extensions first,
      then any other path the upload rule produces. */
  method FindAvatar(files: Files) returns (found: Option<string>)
    ensures found.None? <==> forall p :: p in files ==> !IsAvatarPath(p)
    ensures found.Some? ==> found.value in files && IsAvatarPath(found.value)
    ensures (exists i :: 0 <= i < |ProbedExtensions| && Probe(ProbedExtensions[i]) in files) ==>
      exists i :: FirstProbeAt(files, i) && found == Some(Probe(ProbedExtensions[i]))
  {
    found := FindAvatarAsWritten(files);
    if found.Some? {
      var i :| FirstProbeAt(files, i) && found.value == Probe(ProbedExtensions[i]);
      StartsWithConcat(AvatarPrefix + ".", ProbedExtensions[i]);
      return;
    }
    if p :| p in files && IsAvatarPath(p) {
      found := Some(p);
    }
  }

  /** The avatar as the settings store holds it; `image` stands for the
      object URL of the decrypted bytes. */
  datatype Avatar = Avatar(cid: Cid, ctime: int, mtime: int, name: string, size: nat,
                           mime: string, image: seq<bv8>)

  /** `a` is the avatar stored at `p`, fetched and decrypted. */
  ghost predicate AvatarFetched(d: Device, p: string, fetch: Cid -> Option<seq<bv8>>,
                                open: (seq<bv8>, Entry, KeyPair) -> Option<seq<bv8>>, a: Avatar)
    reads d, d.backend
  {
    && d.Current().Some? && p in d.Current().value.files && IsAvatarPath(p)
    && var e := d.Current().value.files[p];
    && fetch(e.cid).Some?
    && open(fetch(e.cid).value, e, d.keys.value).Some?
    && a == Avatar(e.cid, e.ctime, e.mtime, e.name, e.size, e.mime,
                   open(fetch(e.cid).value, e, d.keys.value).value)
  }

  /** The avatar stored at `p` cannot be fetched or decrypted. */
  ghost predicate AvatarUnreadable(d: Device, p: string, fetch: Cid -> Option<seq<bv8>>,
                                   open: (seq<bv8>, Entry, KeyPair) -> Option<seq<bv8>>)
    reads d, d.backend
  {
    && d.Current().Some? && p in d.Current().value.files && IsAvatarPath(p)
    && var e := d.Current().value.files[p];
    || fetch(e.cid).None?
    || open(fetch(e.cid).value, e, d.keys.value).None?
  }

  /** `getAvatar`. `fetch` is the gateway and `open` decrypts (null when
      unwrapping the key or decrypting throws). `chosen` is the path the
      lookup picks: the first probed path present, else any other avatar
      path. The avatar is the one stored there, or none when it cannot be
      fetched or decrypted. */
  method GetAvatar(d: Device, fetch: Cid -> Option<seq<bv8>>,
                   open: (seq<bv8>, Entry, KeyPair) -> Option<seq<bv8>>)
    returns (avatar: Option<Avatar>, chosen: Option<string>)
    ensures d.Current().None? ==> avatar.None? && chosen.None?
    ensures d.Current().Some? ==>
      (chosen.None? <==> forall p :: p in d.Current().value.files ==> !IsAvatarPath(p))
    ensures chosen.Some? ==> d.Current().Some? && chosen.value in d.Current().value.files
    ensures d.Current().Some? ==>
      (exists i :: 0 <= i < |ProbedExtensions| && Probe(ProbedExtensions[i]) in d.Current().value.files) ==>
      exists i :: FirstProbeAt(d.Current().value.files, i) && chosen == Some(Probe(ProbedExtensions[i]))
    ensures avatar.Some? ==> chosen.Some? && AvatarFetched(d, chosen.value, fetch, open, avatar.value)
    ensures chosen.Some? ==> (avatar.None? <==> AvatarUnreadable(d, chosen.value, fetch, open))
  {
    var m := d.GetCurrentManifest();
    if m.None? || d.keys.None? {
      return None, None;
    }
    chosen := FindAvatar(m.value.files);
    if chosen.None? {
      return None, None;
    }
    var e := m.value.files[chosen.value];
    var data := fetch(e.cid);
    if data.None? {
      assert AvatarUnreadable(d, chosen.value, fetch, open);
      return None, chosen;
    }
    var plain := open(data.value, e, d.keys.value);
    if plain.None? {
      assert AvatarUnreadable(d, chosen.value, fetch, open);
      return None, chosen;
    }
    avatar := Some(Avatar(e.cid, e.ctime, e.mtime, e.name, e.size, e.mime, plain.value));
    assert AvatarFetched(d, chosen.value, fetch, open, avatar.value);
  }

  // ---------------------------------------------------------------------
  // Upload

  /** The image file offered for upload. */
  datatype Image = Image(name: string, mime: string, size: nat)

  /** The files with every key that starts with the avatar prefix removed. */
  function WithoutAvatars(files: Files): (r: Files)
    ensures forall p :: p in r <==> p in files && !StartsWith(p, AvatarPrefix)
    ensures forall p :: p in r ==> r[p] == files[p]
  {
    map p | p in files && !StartsWith(p, AvatarPrefix) :: files[p]
  }

  /** The purge loop: every key of the copy is visited and the avatar keys
      are deleted. */
  method PurgeAvatars(files: Files) returns (kept: Files)
    ensures kept == WithoutAvatars(files)
  {
    kept := files;
    var pending := files.Keys;
    while pending != {}
      invariant pending <= files.Keys
      invariant forall p :: p in kept <==>
        p in files && (p in pending || !StartsWith(p, AvatarPrefix))
      invariant forall p :: p in kept ==> kept[p] == files[p]
      decreases |pending|
    {
      var p :| p in pending;
      if StartsWith(p, AvatarPrefix) {
        kept := kept - {p};
      }
      pending := pending - {p};
    }
  }

  /** The record written for an uploaded image: created and modified now. */
  function AvatarEntry(image: Image, sealed: Sealed, now: int): Entry {
    Entry(sealed.cid, sealed.iv, sealed.key, image.name, image.mime, image.size, now, now)
  }

  /** The manifest after an upload: the old avatars purged and the new one
      added. Exactly one avatar path remains, and nothing else changes. */
  function WithAvatar(m: UserManifest, image: Image, sealed: Sealed, now: int): (r: UserManifest)
    ensures r.publicKey == m.publicKey
    ensures AvatarPath(image.name) in r.files
    ensures r.files[AvatarPath(image.name)] == AvatarEntry(image, sealed, now)
    ensures forall p :: p in r.files && StartsWith(p, AvatarPrefix) ==> p == AvatarPath(image.name)
    ensures forall p :: !StartsWith(p, AvatarPrefix) ==>
      (p in r.files <==> p in m.files) && (p in r.files ==> r.files[p] == m.files[p])
  {
    AvatarPathPrefixed(AvatarPath(image.name));
    UserManifest(m.publicKey, WithoutAvatars(m.files)[AvatarPath(image.name) := AvatarEntry(image, sealed, now)])
  }

  datatype Upload = TooLarge | NotSignedIn | PinFailed | UpdateFailed | Uploaded

  /** `uploadAvatar`. `sealed` is the outcome of encrypting the image and
      pinning the ciphertext (null when pinning fails) and `reachable` whether
      pinning the new manifest succeeds. The size check comes first, so an
      oversized image is refused even when nobody is signed in. */
  method UploadAvatar(d: Device, image: Image, now: int, sealed: Option<Sealed>, reachable: bool)
    returns (outcome: Upload)
    requires d.backend.Valid()
    modifies d, d.backend
    ensures d.backend.Valid() && Extends(old(d.backend.docs), d.backend.docs)
    ensures d.keys == old(d.keys) && d.session == old(d.session)
    ensures outcome == TooLarge <==> image.size > SizeLimit
    ensures outcome == NotSignedIn <==> image.size <= SizeLimit && old(d.Current()).None?
    ensures outcome == PinFailed <==>
      image.size <= SizeLimit && old(d.Current()).Some? && sealed.None?
    ensures outcome == Uploaded <==>
      && image.size <= SizeLimit && old(d.Current()).Some? && sealed.Some? && reachable
      && old(d.Current()).value.publicKey == d.keys.value.publicJwk
    ensures outcome == Uploaded ==>
      d.Current() == Some(WithAvatar(old(d.Current()).value, image, sealed.value, now))
    ensures outcome != Uploaded ==> d.pointer == old(d.pointer) && d.backend.docs == old(d.backend.docs)
  {
    if image.size > SizeLimit {
      return TooLarge;
    }
    var m := d.GetCurrentManifest();
    if m.None? || d.keys.None? {
      return NotSignedIn;
    }
    if sealed.None? {
      return PinFailed;
    }
    var path := AvatarPath(image.name);
    var files := PurgeAvatars(m.value.files);
    files := files[path := AvatarEntry(image, sealed.value, now)];
    var updated := UserManifest(m.value.publicKey, files);
    assert updated == WithAvatar(m.value, image, sealed.value, now);
    var cid := d.UpdateManifest(updated, reachable);
    outcome := if cid.Some? then Uploaded else UpdateFailed;
  }

  /** After an upload the manifest holds exactly one avatar path, the new
      one, so the lookup finds the uploaded image. */
  lemma UploadedIsOnlyAvatar(m: UserManifest, image: Image, sealed: Sealed, now: int, p: string)
    requires p in WithAvatar(m, image, sealed, now).files && IsAvatarPath(p)
    ensures p == AvatarPath(image.name)
  {
    AvatarPathPrefixed(p);
  }

  /** The corrected lookup finds what the upload wrote: after an upload it
      returns exactly the new avatar path, whatever the extension. */
  method UploadedIsFound(m: UserManifest, image: Image, sealed: Sealed, now: int) returns (found: Option<string>)
    ensures found == Some(AvatarPath(image.name))
  {
    var files := WithAvatar(m, image, sealed, now).files;
    StartsWithConcat(AvatarPrefix + ".", AfterLastDot(image.name));
    StartsWithConcat(AvatarPrefix + ".", DefaultExtension);
    assert IsAvatarPath(AvatarPath(image.name));
    found := FindAvatar(files);
    UploadedIsOnlyAvatar(m, image, sealed, now, found.value);
  }

  /** The lookup as written misses an upload whose extension it does not
      probe: after uploading "me.JPG" no probed path is present, because the
      upload removed the old avatar and stored the new one under
      `avatar.JPG`. */
  lemma UploadedJpgUnseen(m: UserManifest, sealed: Sealed, now: int)
    ensures AvatarPath("me.JPG") == "private/settings/avatar.JPG"
    ensures forall i :: 0 <= i < |ProbedExtensions| ==>
      Probe(ProbedExtensions[i]) !in WithAvatar(m, Image("me.JPG", "image/jpeg", 1), sealed, now).files
  {
    var name := "me.JPG";
    var ext := AfterLastDot(name);
    assert ext == "JPG";
    var r := WithAvatar(m, Image(name, "image/jpeg", 1), sealed, now);
    forall i | 0 <= i < |ProbedExtensions|
      ensures Probe(ProbedExtensions[i]) !in r.files
    {
      var q := Probe(ProbedExtensions[i]);
      StartsWithConcat(AvatarPrefix, "." + ProbedExtensions[i]);
      assert q == AvatarPrefix + ("." + ProbedExtensions[i]);

    }
  }
}
