/** The browser-only helpers of src/lib/browser.ts: the list of registered
    user names and the per-user public keys kept in local storage. */
module Browser {
  /** The `registeredUsers` item: unset, the empty string, the JSON of a list
      of names, or text that does not parse as one. */
  datatype Slot = Unset | Blank | Users(list: seq<string>) | Malformed

  /** No name occurs twice. */
  predicate NoDuplicates(us: seq<string>) {
    forall i, j :: 0 <= i < j < |us| ==> us[i] != us[j]
  }

  /** The list after registering `u`: appended when new, unchanged otherwise. */
  function Added(us: seq<string>, u: string): (r: seq<string>)
    ensures u in r
    ensures forall x :: x in r <==> x in us || x == u
    ensures us <= r
    ensures |r| == if u in us then |us| else |us| + 1
  {
    if u in us then us else us + [u]
  }

  /** Registering keeps the list free of duplicates. */
  lemma AddedKeepsNoDuplicates(us: seq<string>, u: string)
    requires NoDuplicates(us)
    ensures NoDuplicates(Added(us, u))
  {
    if u !in us {
      var r := us + [u];
      forall i, j | 0 <= i < j < |r|
        ensures r[i] != r[j]
      {
        if j == |us| {
          assert r[i] == us[i];
        }
      }
    }
  }

  /** Registering the same name twice is registering it once. */
  lemma AddedIdempotent(us: seq<string>, u: string)
    ensures Added(Added(us, u), u) == Added(us, u)
  {
  }

  /** Local storage as these helpers see it. Outside a browser every helper
      does nothing and reports the defaults. */
  class Storage {
    const inBrowser: bool
    var registered: Slot
    /** Every other item, by key. */
    var items: map<string, string>

    constructor (inBrowser: bool)
      ensures this.inBrowser == inBrowser && registered == Unset && items == map[]
    {
      this.inBrowser := inBrowser;
      registered := Unset;
      items := map[];
    }

    /** `getRegisteredUsers`: the stored list; a missing, empty or unreadable
        item reads as no users. */
    function RegisteredUsers(): (us: seq<string>)
      reads this
      ensures !inBrowser ==> us == []
      ensures inBrowser && registered.Users? ==> us == registered.list
      ensures !registered.Users? ==> us == []
    {
      if inBrowser && registered.Users? then registered.list else []
    }

    /** `isUsernameAvailable`: a name is free when it is not registered;
        outside a browser every name is. */
    function UsernameAvailable(u: string): (free: bool)
      reads this
      ensures free <==> u !in RegisteredUsers()
    {
      !inBrowser || u !in RegisteredUsers()
    }

    /** `addRegisteredUser`: appends `u` to the stored list unless it is
        already there. An unreadable item is replaced by a list holding
        only `u`. Afterwards the name is taken. */
    method AddRegisteredUser(u: string)
      modifies this
      ensures items == old(items)
      ensures !inBrowser ==> registered == old(registered)
      ensures inBrowser ==> RegisteredUsers() == Added(old(RegisteredUsers()), u)
      ensures inBrowser ==> !UsernameAvailable(u)
      ensures inBrowser && u in old(RegisteredUsers()) ==> registered == old(registered)
    {
      if !inBrowser {
        return;
      }
      var users := RegisteredUsers();
      if u !in users {
        registered := Users(users + [u]);
      }
    }

    /** `storePublicKey`: writes the key under `<username>_publicKey` and
        nothing else. */
    method StorePublicKey(username: string, publicKey: string)
      modifies this
      ensures registered == old(registered)
      ensures items == if inBrowser then old(items)[username + "_publicKey" := publicKey] else old(items)
    {
      if inBrowser {
        items := items[username + "_publicKey" := publicKey];
      }
    }
  }

  /** A name read back after registering is reported taken, and the list
      stays free of duplicates across registrations. */
  method RegisterTwice(s: Storage, u: string, v: string)
    requires s.inBrowser && NoDuplicates(s.RegisteredUsers())
    modifies s
    ensures NoDuplicates(s.RegisteredUsers())
    ensures !s.UsernameAvailable(u) && !s.UsernameAvailable(v)
  {
    var before := s.RegisteredUsers();
    s.AddRegisteredUser(u);
    AddedKeepsNoDuplicates(before, u);
    var middle := s.RegisteredUsers();
    s.AddRegisteredUser(v);
    AddedKeepsNoDuplicates(middle, v);
  }
}
