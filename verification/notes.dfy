/** Markdown notes kept as encrypted files under `notes/` in the user
    manifest (src/lib/notes.ts). */
module Notes {
  import opened Wrappers
  import opened Strings
  import opened Manifest
  import opened Ipfs
  import opened Account

  const NotesDir := "notes/"
  const NoteExt := ".md"
  const Untitled := "Untitled Note"
  const MarkdownType := "text/markdown"

  /** The manifest paths the notes list shows. */
  predicate IsNotePath(p: string) {
    StartsWith(p, NotesDir) && EndsWith(p, NoteExt)
  }

  /** A note as the list shows it; the content is loaded on demand. */
  datatype Note = Note(path: string, title: string, cid: Cid, mtime: int)

  // ---------------------------------------------------------------------
  // Titles

  /** The list title as written: the first `.md` anywhere in the stored
      name is removed. */
  function TitleAsWritten(name: string): string {
    ReplaceFirst(name, NoteExt, "")
  }

  /** The list title: the stored name without its `.md` extension. */
  function Title(name: string): (t: string)
    ensures EndsWith(name, NoteExt) ==> t + NoteExt == name
    ensures !EndsWith(name, NoteExt) ==> t == name
  {
    if EndsWith(name, NoteExt) then name[..|name| - |NoteExt|] else name
  }

  /** The note a manifest entry stands for. */
  function NoteOf(path: string, e: Entry): (n: Note)
    ensures n.path == path && n.cid == e.cid && n.mtime == e.mtime
    ensures n.title + NoteExt == e.name || (!EndsWith(e.name, NoteExt) && n.title == e.name)
  {
    Note(path, Title(e.name), e.cid, e.mtime)
  }

  /** The characters JavaScript's `trim` removes: WhiteSpace and
      LineTerminator of ECMAScript, that is TAB, VT, FF, SP, NBSP, ZWNBSP,
      the space separators of Unicode category Zs, LF, CR, LS and PS. */
  predicate IsJsSpace(c: char) {
    || c == '\U{0009}' || c == '\U{000B}' || c == '\U{000C}' || c == ' '
    || c == '\U{00A0}' || c == '\U{FEFF}' || c == '\U{1680}'
    || ('\U{2000}' <= c <= '\U{200A}') || c == '\U{202F}' || c == '\U{205F}' || c == '\U{3000}'
    || c == '\U{000A}' || c == '\U{000D}' || c == '\U{2028}' || c == '\U{2029}'
  }

  /** The note's name: the trimmed title, or the placeholder when nothing
      is left. */
  function NoteName(title: string): (name: string)
    ensures name != ""
    ensures Trim(title, IsJsSpace) == "" ==> name == Untitled
    ensures Trim(title, IsJsSpace) != "" ==> name == Trim(title, IsJsSpace)
  {
    var t := Trim(title, IsJsSpace);
    if t == "" then Untitled else t
  }

  function NoteFileName(title: string): string {
    NoteName(title) + NoteExt
  }

  /** Where a note with this title is stored. */
  function NotePath(title: string): (p: string)
    ensures IsNotePath(p)
    ensures p == NotesDir + NoteFileName(title)
  {
    NotePathShape(NoteName(title));
    NotesDir + NoteFileName(title)
  }

  lemma NotePathShape(name: string)
    ensures IsNotePath(NotesDir + (name + NoteExt))
  {
    StartsWithConcat(NotesDir, name + NoteExt);
    assert NotesDir + (name + NoteExt) == (NotesDir + name) + NoteExt;
    EndsWithConcat(NotesDir + name, NoteExt);
  }

  /** A title with no space at either end is kept as it is. */
  lemma TrimmedTitleKept(title: string)
    requires title != "" && !IsJsSpace(title[0]) && !IsJsSpace(title[|title| - 1])
    ensures NoteName(title) == title
  {
    assert TrimStart(title, IsJsSpace) == title;
    assert TrimEnd(title, IsJsSpace) == title;
  }

  /** The title a saved note is listed under is its trimmed title. */
  lemma TitleRoundTrip(title: string)
    ensures Title(NoteFileName(title)) == NoteName(title)
  {
    EndsWithConcat(NoteName(title), NoteExt);
  }

  /** Removing the first `.md` garbles any name that holds `.md` before its
      extension: "a.md b" is saved as "a.md b.md" and listed as "a b.md". */
  lemma TitleAsWrittenGarbles()
    ensures NoteFileName("a.md b") == "a.md b.md"
    ensures TitleAsWritten(NoteFileName("a.md b")) == "a b.md"
    ensures Title(NoteFileName("a.md b")) == "a.md b"
  {
    TrimmedTitleKept("a.md b");
    TitleRoundTrip("a.md b");
    FirstMdAt1();
  }

  lemma FirstMdAt1()
    ensures TitleAsWritten("a.md b.md") == "a b.md"
  {
    var name := "a.md b.md";
    FirstMdIndex(name);
    assert name[..1] + "" + name[4..] == "a b.md";
  }

  lemma FirstMdIndex(name: string)
    requires name == "a.md b.md"
    ensures FirstIndex(name, NoteExt) == Some(1)
  {
    assert !OccursAt(name, NoteExt, 0) by { assert name[0] != NoteExt[0]; }
    assert OccursAt(name, NoteExt, 1) by { assert name[1..4] == NoteExt; }
    FirstIndexIs(name, NoteExt, 1);
  }

  // ---------------------------------------------------------------------
  // Listing

  /** What the notes list holds for manifest files `files`: exactly one
      note per `notes/….md` entry. */
  predicate Listed(files: Files, n: Note) {
    n.path in files && IsNotePath(n.path) && n == NoteOf(n.path, files[n.path])
  }

  predicate NewestFirst(ns: seq<Note>) {
    forall i, j :: 0 <= i < j < |ns| ==> ns[i].mtime >= ns[j].mtime
  }

  predicate DistinctPaths(ns: seq<Note>) {
    forall i, j :: 0 <= i < j < |ns| ==> ns[i].path != ns[j].path
  }

  lemma TailDistinct(ns: seq<Note>)
    requires ns != []
    ensures DistinctPaths(ns) ==>
      DistinctPaths(ns[1..]) && forall x :: x in ns[1..] ==> x.path != ns[0].path
  {
    if DistinctPaths(ns) {
      forall x | x in ns[1..]
        ensures x.path != ns[0].path
      {
        var k :| 0 <= k < |ns[1..]| && ns[1..][k] == x;
        assert ns[k + 1] == x;
      }
    }
  }

  lemma ConsDistinct(a: Note, rest: seq<Note>)
    ensures DistinctPaths(rest) && (forall x :: x in rest ==> x.path != a.path) ==>
      DistinctPaths([a] + rest)
  {
    if DistinctPaths(rest) && (forall x :: x in rest ==> x.path != a.path) {
      forall i, j | 0 <= i < j < |[a] + rest|
        ensures ([a] + rest)[i].path != ([a] + rest)[j].path
      {
        assert ([a] + rest)[j] == rest[j - 1];
        if i > 0 {
          assert ([a] + rest)[i] == rest[i - 1];
        }
      }
    }
  }

  /** Inserts `n` into a list, before the first note no newer than it. */
  function InsertNewestFirst(ns: seq<Note>, n: Note): (r: seq<Note>)
    ensures multiset(r) == multiset(ns) + multiset{n}
  {
    if ns == [] || ns[0].mtime <= n.mtime then
      [n] + ns
    else
      assert ns == [ns[0]] + ns[1..];
      [ns[0]] + InsertNewestFirst(ns[1..], n)
  }

  /** Inserting keeps a list newest first. */
  lemma {:induction false} InsertKeepsOrder(ns: seq<Note>, n: Note)
    requires NewestFirst(ns)
    ensures NewestFirst(InsertNewestFirst(ns, n))
  {
    if ns == [] || ns[0].mtime <= n.mtime {
    } else {
      var rest := InsertNewestFirst(ns[1..], n);
      InsertKeepsOrder(ns[1..], n);
      forall x | x in rest
        ensures x.mtime <= ns[0].mtime
      {
        assert x in multiset(rest);
        if x != n {
          var k :| 0 <= k < |ns[1..]| && ns[1..][k] == x;
          assert ns[k + 1] == x;
        }
      }
      ConsOrdered(ns[0], rest);
    }
  }

  lemma ConsOrdered(a: Note, rest: seq<Note>)
    requires NewestFirst(rest) && forall x :: x in rest ==> x.mtime <= a.mtime
    ensures NewestFirst([a] + rest)
  {
    forall i, j | 0 <= i < j < |[a] + rest|
      ensures ([a] + rest)[i].mtime >= ([a] + rest)[j].mtime
    {
      assert ([a] + rest)[j] == rest[j - 1];
      if i > 0 {
        assert ([a] + rest)[i] == rest[i - 1];
      }
    }
  }

  /** Inserting a note whose path is new keeps the paths distinct. */
  lemma {:induction false} InsertKeepsDistinct(ns: seq<Note>, n: Note)
    requires DistinctPaths(ns) && forall x :: x in ns ==> x.path != n.path
    ensures DistinctPaths(InsertNewestFirst(ns, n))
  {
    if ns == [] || ns[0].mtime <= n.mtime {
      ConsDistinct(n, ns);
    } else {
      TailDistinct(ns);
      InsertKeepsDistinct(ns[1..], n);
      var rest := InsertNewestFirst(ns[1..], n);
      forall x | x in rest
        ensures x.path != ns[0].path
      {
        assert x in multiset(rest);
      }
      ConsDistinct(ns[0], rest);
    }
  }

  /** `listNotes`: the `notes/….md` entries of the current manifest, newest
      first; none when there is no manifest. Notes with equal times may come
      in any order. */
  method ListNotes(d: Device) returns (notes: seq<Note>)
    ensures d.Current().None? ==> notes == []
    ensures d.Current().Some? ==>
      forall n :: n in notes <==> Listed(d.Current().value.files, n)
    ensures DistinctPaths(notes)
    ensures NewestFirst(notes)
  {
    var m := d.GetCurrentManifest();
    if m.None? {
      return [];
    }
    var files := m.value.files;
    var pending := files.Keys;
    notes := [];
    while pending != {}
      invariant pending <= files.Keys
      invariant forall n :: n in notes <==> Listed(files, n) && n.path !in pending
      invariant DistinctPaths(notes)
      invariant NewestFirst(notes)
      decreases |pending|
    {
      var p :| p in pending;
      if IsNotePath(p) {
        var n := NoteOf(p, files[p]);
        InsertKeepsOrder(notes, n);
        InsertKeepsDistinct(notes, n);
        notes := InsertNewestFirst(notes, n);
        assert forall x :: x in notes <==> x in multiset(notes);
      }
      pending := pending - {p};
    }
  }

  // ---------------------------------------------------------------------
  // Loading

  /** `loadNoteContent`. `fetch` is the gateway (raw bytes by CID, or null)
      and `open` unwraps the content key with the private key and decrypts
      (null when either step throws). Without a manifest or without an entry
      for the note nothing is fetched; `fetched` is the CID asked of the
      gateway, if any. */
  method LoadNoteContent(
    d: Device, note: Note,
    fetch: Cid -> Option<seq<bv8>>,
    open: (seq<bv8>, Entry, KeyPair) -> Option<string>)
    returns (content: Option<string>, ghost fetched: Option<Cid>)
    ensures fetched.Some? <==> d.Current().Some? && note.path in d.Current().value.files
    ensures fetched.Some? ==> fetched.value == d.Current().value.files[note.path].cid
    ensures content.Some? <==>
      && fetched.Some? && fetch(fetched.value).Some?
      && open(fetch(fetched.value).value, d.Current().value.files[note.path], d.keys.value).Some?
    ensures content.Some? ==>
      content == open(fetch(fetched.value).value, d.Current().value.files[note.path], d.keys.value)
  {
    fetched := None;
    var m := d.GetCurrentManifest();
    if m.None? || d.keys.None? || note.path !in m.value.files {
      return None, None;
    }
    var entry := m.value.files[note.path];
    fetched := Some(entry.cid);
    var data := fetch(entry.cid);
    if data.None? {
      return None, fetched;
    }
    content := open(data.value, entry, d.keys.value);
  }

  // ---------------------------------------------------------------------
  // Saving and deleting

  /** The record written for a note: a fresh ciphertext, `mtime` now, and the
      creation time of the entry it replaces when that is set (non-zero),
      otherwise now. */
  function NoteEntry(existing: Option<Entry>, sealed: Sealed, fileName: string, size: nat, now: int): Entry {
    var ctime := if existing.Some? && existing.value.ctime != 0 then existing.value.ctime else now;
    Entry(sealed.cid, sealed.iv, sealed.key, fileName, MarkdownType, size, ctime, now)
  }

  /** The manifest after saving note `title` with `size` bytes of content. */
  function Saved(m: UserManifest, title: string, sealed: Sealed, size: nat, now: int): (r: UserManifest)
    ensures r.publicKey == m.publicKey
    ensures forall p :: p != NotePath(title) ==> (p in r.files <==> p in m.files)
    ensures forall p :: p != NotePath(title) && p in m.files ==> r.files[p] == m.files[p]
    ensures |r.files| == if NotePath(title) in m.files then |m.files| else |m.files| + 1
    ensures NotePath(title) in r.files
    ensures var e := r.files[NotePath(title)];
      && e.cid == sealed.cid && e.iv == sealed.iv && e.key == sealed.key
      && e.name == NoteFileName(title) && e.mime == MarkdownType && e.size == size
      && e.mtime == now
      && e.ctime == (if NotePath(title) in m.files && m.files[NotePath(title)].ctime != 0
                     then m.files[NotePath(title)].ctime else now)
  {
    var path := NotePath(title);
    var existing := if path in m.files then Some(m.files[path]) else None;
    WithFile(m, path, NoteEntry(existing, sealed, NoteFileName(title), size, now))
  }

  /** A saved note appears in the list under its trimmed title. */
  lemma SavedIsListed(m: UserManifest, title: string, sealed: Sealed, size: nat, now: int)
    ensures Listed(Saved(m, title, sealed, size, now).files,
                   Note(NotePath(title), NoteName(title), sealed.cid, now))
  {
    TitleRoundTrip(title);
  }

  /** `saveNote`. `content` is the note's text, whose UTF-8 length is stored
      as the size; `sealed` is the outcome of encrypting it and pinning the
      ciphertext (null when pinning fails) and `reachable` whether pinning the
      new manifest succeeds. The manifest changes only at the note's path. */
  method SaveNote(d: Device, title: string, content: string, now: int,
                  sealed: Option<Sealed>, reachable: bool) returns (ok: bool)
    requires d.backend.Valid()
    modifies d, d.backend
    ensures d.backend.Valid() && Extends(old(d.backend.docs), d.backend.docs)
    ensures d.keys == old(d.keys) && d.session == old(d.session)
    ensures ok <==>
      && old(d.Current()).Some? && sealed.Some? && reachable
      && old(d.Current()).value.publicKey == d.keys.value.publicJwk
    ensures ok ==>
      d.Current() == Some(Saved(old(d.Current()).value, title, sealed.value, Utf8Size(content), now))
    ensures !ok ==> d.pointer == old(d.pointer) && d.backend.docs == old(d.backend.docs)
  {
    var m := d.GetCurrentManifest();
    if m.None? || d.keys.None? || sealed.None? {
      return false;
    }
    var updated := Saved(m.value, title, sealed.value, Utf8Size(content), now);
    var cid := d.UpdateManifest(updated, reachable);
    ok := cid.Some?;
  }

  /** `deleteNote`: refused when there is no manifest or no entry at `path`;
      otherwise exactly that entry is removed. */
  method DeleteNote(d: Device, path: string, reachable: bool) returns (ok: bool)
    requires d.backend.Valid()
    modifies d, d.backend
    ensures d.backend.Valid() && Extends(old(d.backend.docs), d.backend.docs)
    ensures d.keys == old(d.keys) && d.session == old(d.session)
    ensures ok <==>
      && old(d.Current()).Some? && path in old(d.Current()).value.files && reachable
      && old(d.Current()).value.publicKey == d.keys.value.publicJwk
    ensures ok ==> d.Current() == Some(WithoutFile(old(d.Current()).value, path))
    ensures !ok ==> d.pointer == old(d.pointer) && d.backend.docs == old(d.backend.docs)
  {
    var m := d.GetCurrentManifest();
    if m.None? || path !in m.value.files {
      return false;
    }
    var cid := d.UpdateManifest(WithoutFile(m.value, path), reachable);
    ok := cid.Some?;
  }
}
