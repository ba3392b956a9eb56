module DirectoryCache {
  // The opt-in directory enumeration cache (src/traversal/cache.go).
  //
  // A cache sits between callers and open directory files.  It must be invisible: however
  // the calls on several files interleave, each one returns what the bare file would have
  // returned.  `NativeRead` is the bare file's contract, `Cache.ReadDir` the cached one, and
  // `RunCalls` connects them over a whole run.

  type Name = string
  type Entry = string
  type Identity = int
  type FileId = int

  const MAX_ENTRIES: nat := 100_000
  const MAX_CURSORS: nat := 100_000
  const SKIP_BATCH: nat := 1024

  datatype Error = Ok | Eof | StatFailed

  datatype Read = Read(entries: seq<Entry>, err: Error)

  /** One call of os.File.ReadDir on a directory with the given listing, read up to offset. */
  function NativeRead(listing: seq<Entry>, offset: nat, n: int): (r: Read)
    requires offset <= |listing|
    ensures offset + |r.entries| <= |listing|
    ensures r.entries == listing[offset..offset + |r.entries|]
    ensures n <= 0 ==> offset + |r.entries| == |listing|
    ensures n > 0 ==> |r.entries| <= n && (r.err == Eof <==> offset == |listing|)
    ensures n > 0 && |r.entries| < n ==> offset + |r.entries| == |listing|
  {
    var left := |listing| - offset;
    if n <= 0 then Read(listing[offset..], Ok)
    else if left == 0 then Read([], Eof)
    else Read(listing[offset..offset + (if n < left then n else left)], Ok)
  }

  /** An open directory.  The id tells open files apart; nobody but the cache moves the offset. */
  class File {
    const id: FileId
    const name: Name
    const identity: Identity
    const listing: seq<Entry>
    var offset: nat

    constructor (id: FileId, name: Name, identity: Identity, listing: seq<Entry>)
      ensures this.id == id && this.name == name && this.identity == identity && this.listing == listing
      ensures offset == 0
    {
      this.id, this.name, this.identity, this.listing, offset := id, name, identity, listing, 0;
    }

    method ReadDir(n: int) returns (r: Read)
      requires offset <= |listing|
      modifies this
      ensures r == NativeRead(listing, old(offset), n)
      ensures offset == old(offset) + |r.entries|
    {
      r := NativeRead(listing, offset, n);
      offset := offset + |r.entries|;
    }
  }

  /** The stored prefix of one directory, shared by every file opened on it. */
  datatype Directory = Directory(identity: Identity, entries: seq<Entry>, complete: bool) {
    /** What may be stored: a prefix of the real directory, all of it once complete. */
    ghost predicate Faithful(listings: Identity -> seq<Entry>) {
      && entries <= listings(identity)
      && (complete ==> entries == listings(identity))
    }
  }

  /** Where one file stands: logical is what its caller has seen, physical what was really read.
      The shared directory is reached through the name it is stored under. */
  datatype Cursor = Cursor(directory: Name, logical: nat, physical: nat)

  /** The number of entries stored in all directories. */
  ghost function Stored(dirs: map<Name, Directory>): nat {
    if dirs == map[] then 0
    else
      var name :| name in dirs;
      |dirs[name].entries| + Stored(dirs - {name})
  }

  /** Any directory may be counted first. */
  lemma {:induction false} StoredWithout(dirs: map<Name, Directory>, name: Name)
    requires name in dirs
    ensures Stored(dirs) == |dirs[name].entries| + Stored(dirs - {name})
  {
    var first :| first in dirs && Stored(dirs) == |dirs[first].entries| + Stored(dirs - {first});
    if first != name {
      StoredWithout(dirs - {first}, name);
      StoredWithout(dirs - {name}, first);
      assert dirs - {first} - {name} == dirs - {name} - {first};
    }
  }

  lemma StoredUpdate(dirs: map<Name, Directory>, name: Name, d: Directory)
    ensures Stored(dirs[name := d]) ==
            Stored(dirs) + |d.entries| - (if name in dirs then |dirs[name].entries| else 0)
  {
    StoredWithout(dirs[name := d], name);
    assert dirs[name := d] - {name} == dirs - {name};
    if name in dirs {
      StoredWithout(dirs, name);
    } else {
      assert dirs - {name} == dirs;
    }
  }

  /** How many stored entries a call for n takes from the position it stands at. */
  function Take(dir: Directory, logical: nat, n: int): nat {
    var available := |dir.entries| - logical;
    if available <= 0 then 0 else if 0 < n < available then n else available
  }

  /** The stored answer is final: the batch is full, or the end of a whole directory is reached. */
  predicate Final(dir: Directory, logical: nat, n: int) {
    var taken := Take(dir, logical, n);
    (n > 0 && taken == n) || (dir.complete && logical + taken == |dir.entries|)
  }

  function StoredRead(dir: Directory, logical: nat, n: int): Read {
    var taken := Take(dir, logical, n);
    Read(if taken == 0 then [] else dir.entries[logical..logical + taken],
         if n > 0 && taken == 0 then Eof else Ok)
  }

  /** A final stored answer is the answer of the bare file; any other is a proper first part of it
      that ends at, or past, the end of the stored prefix of an unfinished directory. */
  lemma StoredReadIsNative(dir: Directory, logical: nat, n: int, listings: Identity -> seq<Entry>)
    requires dir.Faithful(listings) && logical <= |listings(dir.identity)|
    ensures logical + Take(dir, logical, n) <= |listings(dir.identity)|
    ensures StoredRead(dir, logical, n).entries ==
            listings(dir.identity)[logical..logical + Take(dir, logical, n)]
    ensures Final(dir, logical, n) ==> StoredRead(dir, logical, n) == NativeRead(listings(dir.identity), logical, n)
    ensures !Final(dir, logical, n) ==>
      && (n > 0 ==> Take(dir, logical, n) < n)
      && !dir.complete
      && |dir.entries| <= logical + Take(dir, logical, n)
  {
    var listing := listings(dir.identity);
    var taken := Take(dir, logical, n);
    assert dir.entries == listing[..|dir.entries|];
    if taken > 0 {
      assert dir.entries[logical..logical + taken] == listing[logical..logical + taken];
    }
  }

  /** The size of a physical read that completes a call of which `served` entries are known. */
  function Missing(n: int, served: nat): int {
    if n > 0 then n - served else n
  }

  /** What is stored after reading `more` at the end of the prefix, with room for so many entries. */
  function Absorb(dir: Directory, start: nat, more: Read, room: nat, n: int): (d: Directory)
    ensures d.identity == dir.identity && dir.entries <= d.entries && |d.entries| <= |dir.entries| + room
    ensures start == |dir.entries| && |more.entries| <= room ==> d.entries == dir.entries + more.entries
    ensures start == |dir.entries| && more == Read([], Eof) ==> d.complete
    ensures start == |dir.entries| && n <= 0 && more.err == Ok && |more.entries| <= room ==> d.complete
  {
    if start != |dir.entries| then dir
    else
      var keep := if |more.entries| > room then room else |more.entries|;
      Directory(dir.identity, dir.entries + more.entries[..keep],
                dir.complete || (keep == |more.entries| && (more.err == Eof || (n <= 0 && more.err == Ok))))
  }

  /** End of directory is reported only by a bounded read that found nothing. */
  function Finish(r: Read, n: int): Read {
    if r.err == Eof && (n <= 0 || |r.entries| > 0) then Read(r.entries, Ok) else r
  }

  /** Storing what was read keeps the prefix faithful, never shortens it and stays within the room. */
  lemma AbsorbIsFaithful(dir: Directory, start: nat, n: int, served: nat, room: nat, listings: Identity -> seq<Entry>)
    requires dir.Faithful(listings) && start <= |listings(dir.identity)|
    requires n > 0 ==> served < n
    ensures
      var d := Absorb(dir, start, NativeRead(listings(dir.identity), start, Missing(n, served)), room, n);
      && d.Faithful(listings)
      && d.identity == dir.identity
      && dir.entries <= d.entries
      && |d.entries| <= |dir.entries| + room
      && (dir.complete ==> d == dir)
  {
    var listing := listings(dir.identity);
    var more := NativeRead(listing, start, Missing(n, served));
    var d := Absorb(dir, start, more, room, n);
    if start == |dir.entries| {
      assert dir.entries == listing[..start];
      assert d.entries == listing[..|d.entries|];
    }
  }

  /** A stored first part followed by a physical read of the rest is one native read. */
  lemma FinishIsNative(listing: seq<Entry>, from: nat, start: nat, n: int)
    requires from <= start <= |listing|
    requires n > 0 ==> start - from < n
    ensures
      var more := NativeRead(listing, start, Missing(n, start - from));
      Finish(Read(listing[from..start] + more.entries, more.err), n) == NativeRead(listing, from, n)
  {
    var more := NativeRead(listing, start, Missing(n, start - from));
    var end := start + |more.entries|;
    assert listing[from..start] + listing[start..end] == listing[from..end];
  }

  /** The part of a call that the stored prefix answers, and whether it counts as a hit. */
  method TakeStored(dir: Directory, logical: nat, n: int) returns (r: Read, done: bool, hit: bool)
    ensures r == StoredRead(dir, logical, n)
    ensures done <==> Final(dir, logical, n)
    ensures hit <==> logical < |dir.entries| || (dir.complete && logical == |dir.entries|)
  {
    var available := |dir.entries| - logical;
    var taken := 0;
    hit := false;
    if available > 0 {
      taken := if n > 0 && available > n then n else available;
      hit := true;
    } else if dir.complete && logical == |dir.entries| {
      hit := true;
    }
    r := Read(if taken == 0 then [] else dir.entries[logical..logical + taken],
              if n > 0 && taken == 0 then Eof else Ok);
    done := (n > 0 && taken == n) || (dir.complete && logical + taken == |dir.entries|);
  }

  /** A cursor stands inside the stored directory its file was opened on. */
  ghost predicate Inside(c: Cursor, dirs: map<Name, Directory>, listings: Identity -> seq<Entry>) {
    && c.directory in dirs
    && c.physical <= c.logical <= |listings(dirs[c.directory].identity)|
  }

  /** Everything the cache retains.  A file is known by its id; its offset lives in the file. */
  datatype Memory = Memory(
    directories: map<Name, Directory>,
    cursors: map<FileId, Cursor>,
    entriesCached: nat,
    entryLimit: nat,
    cursorLimit: nat)
  {
    /** Stored entries are faithful prefixes within the limits, and every cursor stands inside. */
    ghost predicate Consistent(listings: Identity -> seq<Entry>) {
      && (forall k :: k in directories ==> directories[k].Faithful(listings))
      && (forall f :: f in cursors ==> Inside(cursors[f], directories, listings))
      && entriesCached <= entryLimit
      && |directories| <= |cursors| <= cursorLimit
    }

    /** EntriesCached is exact. */
    ghost predicate Counted() {
      entriesCached == Stored(directories)
    }

    /** The file is always read directly: no cursor can be opened for it, now or later. */
    predicate Bypasses(id: FileId, name: Name, identity: Identity) {
      && id !in cursors
      && (|cursors| >= cursorLimit || (name in directories && directories[name].identity != identity))
    }

    /** From this memory to next, a call on one file loses nothing known about any other file or
        about any directory. */
    ghost predicate KeepsAllBut(next: Memory, id: FileId) {
      && (forall g :: g in cursors ==> g in next.cursors)
      && (forall g :: g in next.cursors ==> g in cursors || g == id)
      && (forall g :: g in cursors && g != id ==> next.cursors[g] == cursors[g])
      && Grows(next)
    }

    /** Every stored directory is still there, and a complete one is untouched. */
    ghost predicate Grows(next: Memory) {
      && |cursors| <= |next.cursors|
      && next.cursorLimit == cursorLimit && next.entryLimit == entryLimit
      && forall k :: k in directories ==>
           && k in next.directories
           && next.directories[k].identity == directories[k].identity
           && (directories[k].complete ==> next.directories[k] == directories[k])
    }
  }

  function WithDirectory(mem: Memory, name: Name, identity: Identity): Memory {
    if name in mem.directories then mem
    else mem.(directories := mem.directories[name := Directory(identity, [], false)])
  }

  function WithCursor(mem: Memory, id: FileId, name: Name): Memory {
    mem.(cursors := mem.cursors[id := Cursor(name, 0, 0)])
  }

  lemma NewCursorIsConsistent(mem: Memory, id: FileId, name: Name, identity: Identity, listings: Identity -> seq<Entry>)
    requires mem.Consistent(listings) && id !in mem.cursors && !mem.Bypasses(id, name, identity)
    ensures
      var next := WithCursor(WithDirectory(mem, name, identity), id, name);
      next.Consistent(listings) && mem.KeepsAllBut(next, id)
  {
  }

  lemma NewDirectoryIsCounted(mem: Memory, name: Name, identity: Identity)
    requires mem.Counted()
    ensures WithDirectory(mem, name, identity).Counted()
  {
    StoredUpdate(mem.directories, name, Directory(identity, [], false));
  }

  /** Makes sure a file that can be cached has a cursor. */
  method Locate(mem: Memory, id: FileId, name: Name, identity: Identity, statOk: bool, ghost listings: Identity -> seq<Entry>)
    returns (next: Memory, found: bool, err: Error)
    requires mem.Consistent(listings) && mem.Counted()
    ensures next.Consistent(listings) && next.Counted() && mem.KeepsAllBut(next, id)
    ensures found <==> id in next.cursors
    ensures id in mem.cursors ==> next == mem
    ensures id !in mem.cursors && found ==> next.cursors[id] == Cursor(name, 0, 0)
    ensures id !in mem.cursors && found ==> next == WithCursor(WithDirectory(mem, name, identity), id, name)
    ensures id !in mem.cursors && found ==> next.directories[name].identity == identity && !mem.Bypasses(id, name, identity)
    ensures !found ==> next == mem && (err == Ok ==> mem.Bypasses(id, name, identity))
    ensures err == Ok || (err == StatFailed && !found && !statOk)
  {
    next, found, err := mem, false, Ok;
    if id in mem.cursors {
      return mem, true, Ok;
    }
    if |mem.cursors| >= mem.cursorLimit {
      return;
    }
    if !statOk {
      err := StatFailed;
      return;
    }
    if name in mem.directories && mem.directories[name].identity != identity {
      return;
    }
    NewDirectoryIsCounted(mem, name, identity);
    NewCursorIsConsistent(mem, id, name, identity, listings);
    if name !in mem.directories {
      next := next.(directories := mem.directories[name := Directory(identity, [], false)]);
    }
    next := next.(cursors := next.cursors[id := Cursor(name, 0, 0)]);
    found := true;
  }

  function WithPosition(mem: Memory, id: FileId, logical: nat, physical: nat): Memory
    requires id in mem.cursors
  {
    mem.(cursors := mem.cursors[id := mem.cursors[id].(logical := logical, physical := physical)])
  }

  lemma MovedIsConsistent(mem: Memory, id: FileId, logical: nat, physical: nat, listings: Identity -> seq<Entry>)
    requires mem.Consistent(listings) && id in mem.cursors
    requires physical <= logical <= |listings(mem.directories[mem.cursors[id].directory].identity)|
    ensures
      var next := WithPosition(mem, id, logical, physical);
      next.Consistent(listings) && mem.KeepsAllBut(next, id)
  {
  }

  /** Records a call that was served from the store: only the logical position moves. */
  method Move(mem: Memory, id: FileId, logical: nat, ghost listings: Identity -> seq<Entry>) returns (next: Memory)
    requires mem.Consistent(listings) && mem.Counted() && id in mem.cursors
    requires mem.cursors[id].physical <= logical <= |listings(mem.directories[mem.cursors[id].directory].identity)|
    ensures next.Consistent(listings) && next.Counted() && mem.KeepsAllBut(next, id)
    ensures id in next.cursors && next.cursors[id] == mem.cursors[id].(logical := logical)
    ensures next.directories == mem.directories
  {
    MovedIsConsistent(mem, id, logical, mem.cursors[id].physical, listings);
    next := WithPosition(mem, id, logical, mem.cursors[id].physical);
  }

  /** The memory after a call was completed by reading `more` behind `served` stored entries: the
      directory absorbs what continues its prefix and both positions end at the same place. */
  function Completed(mem: Memory, id: FileId, n: int, served: nat, more: Read): Memory
    requires id in mem.cursors && mem.cursors[id].directory in mem.directories
    requires mem.entriesCached <= mem.entryLimit
  {
    var cur := mem.cursors[id];
    var start := cur.logical + served;
    var end := start + |more.entries|;
    var dir := mem.directories[cur.directory];
    var d := Absorb(dir, start, more, mem.entryLimit - mem.entriesCached, n);
    mem.(directories := mem.directories[cur.directory := d],
         cursors := mem.cursors[id := Cursor(cur.directory, end, end)],
         entriesCached := mem.entriesCached + (|d.entries| - |dir.entries|))
  }

  lemma CompletedIsConsistent(mem: Memory, id: FileId, n: int, served: nat, listings: Identity -> seq<Entry>)
    requires mem.Consistent(listings) && id in mem.cursors
    requires n > 0 ==> served < n
    requires mem.cursors[id].logical + served <= |listings(mem.directories[mem.cursors[id].directory].identity)|
    ensures
      var more := NativeRead(listings(mem.directories[mem.cursors[id].directory].identity),
                             mem.cursors[id].logical + served, Missing(n, served));
      var next := Completed(mem, id, n, served, more);
      next.Consistent(listings) && mem.KeepsAllBut(next, id)
  {
    hide Absorb, Missing;
    var cur := mem.cursors[id];
    AbsorbIsFaithful(mem.directories[cur.directory], cur.logical + served, n, served, mem.entryLimit - mem.entriesCached, listings);
  }

  lemma CompletedIsCounted(mem: Memory, id: FileId, n: int, served: nat, more: Read)
    requires mem.Counted() && id in mem.cursors && mem.cursors[id].directory in mem.directories
    requires mem.entriesCached <= mem.entryLimit
    ensures Completed(mem, id, n, served, more).Counted()
  {
    var cur := mem.cursors[id];
    StoredUpdate(mem.directories, cur.directory, Absorb(mem.directories[cur.directory], cur.logical + served, more,
                                                        mem.entryLimit - mem.entriesCached, n));
  }

  /** Records a completed call. */
  method Complete(mem: Memory, id: FileId, n: int, served: nat, more: Read, ghost listings: Identity -> seq<Entry>)
    returns (next: Memory)
    requires mem.Consistent(listings) && mem.Counted() && id in mem.cursors
    requires n > 0 ==> served < n
    requires
      var listing := listings(mem.directories[mem.cursors[id].directory].identity);
      && mem.cursors[id].logical + served <= |listing|
      && more == NativeRead(listing, mem.cursors[id].logical + served, Missing(n, served))
    ensures next.Consistent(listings) && next.Counted() && mem.KeepsAllBut(next, id)
    ensures
      var cur := mem.cursors[id];
      var end := cur.logical + served + |more.entries|;
      id in next.cursors && next.cursors[id] == Cursor(cur.directory, end, end)
    ensures next == Completed(mem, id, n, served, more)
  {
    CompletedIsConsistent(mem, id, n, served, listings);
    CompletedIsCounted(mem, id, n, served, more);
    next := Completed(mem, id, n, served, more);
  }

  /** An unbounded call of this file would leave its directory stored whole: what the file has not
      seen begins inside the stored part, and there is room for the rest. */
  ghost predicate HasRoom(mem: Memory, id: FileId, name: Name, listing: seq<Entry>) {
    var d := if id in mem.cursors then mem.cursors[id].directory else name;
    var stored := if d in mem.directories then |mem.directories[d].entries| else 0;
    (id in mem.cursors ==> mem.cursors[id].logical <= stored) && |listing| <= stored + (mem.entryLimit - mem.entriesCached)
  }

  /** The directory behind a file with a cursor is stored whole. */
  predicate Whole(mem: Memory, id: FileId) {
    && id in mem.cursors && mem.cursors[id].directory in mem.directories
    && mem.directories[mem.cursors[id].directory].complete
  }

  /** The directory of a file is stored whole: that of one already known, or the one under whose name a
      file not read yet can still be put. */
  predicate KnownWhole(mem: Memory, id: FileId, name: Name, identity: Identity) {
    if id in mem.cursors then Whole(mem, id)
    else
      && |mem.cursors| < mem.cursorLimit
      && name in mem.directories && mem.directories[name].identity == identity
      && mem.directories[name].complete
  }

  lemma CompletedIsWhole(mem: Memory, id: FileId, name: Name, n: int, served: nat, listings: Identity -> seq<Entry>)
    requires mem.Consistent(listings) && id in mem.cursors && n <= 0
    requires served == Take(mem.directories[mem.cursors[id].directory], mem.cursors[id].logical, n)
    requires mem.cursors[id].logical + served <= |listings(mem.directories[mem.cursors[id].directory].identity)|
    requires HasRoom(mem, id, name, listings(mem.directories[mem.cursors[id].directory].identity))
    ensures
      var more := NativeRead(listings(mem.directories[mem.cursors[id].directory].identity),
                             mem.cursors[id].logical + served, Missing(n, served));
      Whole(Completed(mem, id, n, served, more), id)
  {
  }

  /** Giving a file its cursor changes neither what is stored nor what there is room for. */
  lemma LocatedSame(mem: Memory, id: FileId, name: Name, identity: Identity, listing: seq<Entry>)
    requires id !in mem.cursors
    ensures
      var next := WithCursor(WithDirectory(mem, name, identity), id, name);
      && (HasRoom(mem, id, name, listing) ==> HasRoom(next, id, name, listing))
      && (name in mem.directories && mem.directories[name].complete ==> Whole(next, id))
  {
  }

  /** What a consistent memory says about a file with a cursor. */
  lemma MemoryHolds(mem: Memory, id: FileId, listings: Identity -> seq<Entry>)
    requires mem.Consistent(listings) && id in mem.cursors
    ensures
      var c := mem.cursors[id];
      && c.directory in mem.directories && mem.directories[c.directory].Faithful(listings)
      && c.physical <= c.logical <= |listings(mem.directories[c.directory].identity)|
      && mem.entriesCached <= mem.entryLimit
  {
  }

  class Cache {
    var mem: Memory
    var directoryReads: nat
    var cacheHits: nat
    var initialized: bool
    ghost const listings: Identity -> seq<Entry>

    /** The zero value; the limits are filled in by the first call. */
    constructor (ghost listings: Identity -> seq<Entry>)
      ensures Valid() && mem == Memory(map[], map[], 0, 0, 0)
      ensures this.listings == listings && !initialized && directoryReads == 0 && cacheHits == 0
    {
      mem := Memory(map[], map[], 0, 0, 0);
      directoryReads, cacheHits, initialized := 0, 0, false;
      this.listings := listings;
    }

    /** A ready cache with chosen limits, as the storage-limit cases configure it. */
    constructor WithLimits(entryLimit: nat, cursorLimit: nat, ghost listings: Identity -> seq<Entry>)
      ensures Valid() && mem == Memory(map[], map[], 0, entryLimit, cursorLimit)
      ensures this.listings == listings && initialized && directoryReads == 0 && cacheHits == 0
    {
      mem := Memory(map[], map[], 0, entryLimit, cursorLimit);
      directoryReads, cacheHits, initialized := 0, 0, true;
      this.listings := listings;
    }

    ghost predicate Valid()
      reads this
    {
      && mem.Consistent(listings)
      && mem.Counted()
      && (!initialized ==> mem == Memory(map[], map[], 0, 0, 0))
    }

    /** A file this cache may be used with: one it knows and is in step with, one not read yet, or
        one that every call must read directly. */
    ghost predicate Ready(f: File)
      reads this, f
    {
      && f.listing == listings(f.identity)
      && f.offset <= |f.listing|
      && if f.id in mem.cursors then
           var c := mem.cursors[f.id];
           && c.physical == f.offset
           && c.directory in mem.directories
           && mem.directories[c.directory].identity == f.identity
         else f.offset == 0 || (initialized && mem.Bypasses(f.id, f.name, f.identity))
    }

    /** How far the caller of f has got. */
    ghost function View(f: File): nat
      reads this, f
    {
      if f.id in mem.cursors then mem.cursors[f.id].logical else f.offset
    }

    /** No call on this file needs to read anything. */
    ghost predicate Finished(f: File)
      reads this
    {
      KnownWhole(mem, f.id, f.name, f.identity)
    }

    /** The memory a call starts from: a zero-value cache gets its limits first. */
    ghost function Started(): Memory
      reads this
    {
      if initialized then mem else Memory(map[], map[], 0, MAX_ENTRIES, MAX_CURSORS)
    }

    method Init()
      requires Valid()
      modifies this`mem, this`initialized
      ensures Valid() && initialized && mem == old(Started())
    {
      if initialized { return; }
      mem := Memory(map[], map[], 0, MAX_ENTRIES, MAX_CURSORS);
      initialized := true;
    }

    method Physical(file: File, n: int) returns (r: Read)
      requires file.offset <= |file.listing|
      modifies this`directoryReads, file
      ensures directoryReads == old(directoryReads) + 1
      ensures r == NativeRead(file.listing, old(file.offset), n)
      ensures file.offset == old(file.offset) + |r.entries|
    {
      directoryReads := directoryReads + 1;
      r := file.ReadDir(n);
    }

    /** Brings the real descriptor up to the logical position, in bounded batches. */
    method CatchUp(file: File, logical: nat)
      requires file.offset <= logical <= |file.listing|
      modifies this`directoryReads, file
      ensures file.offset == logical
    {
      while file.offset < logical
        invariant file.offset <= logical
      {
        var count := logical - file.offset;
        if count > SKIP_BATCH {
          count := SKIP_BATCH;
        }
        var skipped := Physical(file, count);
      }
    }

    /** Reads on behind the stored part `first` of a call: the descriptor catches up, then delivers. */
    method ReadBehind(file: File, n: int, first: seq<Entry>, from: nat) returns (more: Read, r: Read)
      requires n > 0 ==> |first| < n
      requires file.offset <= from + |first| <= |file.listing| && first == file.listing[from..from + |first|]
      modifies this`directoryReads, file
      ensures more == NativeRead(file.listing, from + |first|, Missing(n, |first|))
      ensures r == NativeRead(file.listing, from, n)
      ensures file.offset == from + |first| + |more.entries| && |r.entries| == |first| + |more.entries|
    {
      CatchUp(file, from + |first|);
      more := Physical(file, Missing(n, |first|));
      r := Finish(Read(first + more.entries, more.err), n);
      FinishIsNative(file.listing, from, from + |first|, n);
    }

    /** A call that storage answers whole: nothing is read. */
    method Serve(file: File, n: int, first: Read)
      requires Valid() && initialized && file.id in mem.cursors && Ready(file)
      requires first == NativeRead(file.listing, mem.cursors[file.id].logical, n)
      modifies this`mem
      ensures Valid() && Ready(file) && old(mem).KeepsAllBut(mem, file.id) && file.id in mem.cursors
      ensures mem.cursors[file.id].logical == old(mem.cursors[file.id].logical) + |first.entries|
      ensures mem.directories == old(mem.directories) && mem.cursors[file.id].directory == old(mem.cursors[file.id].directory)
    {
      hide Memory.Counted, Memory.Consistent, NativeRead;
      var cur := mem.cursors[file.id];
      MemoryHolds(mem, file.id, listings);
      mem := Move(mem, file.id, cur.logical + |first.entries|, listings);
      MemoryHolds(mem, file.id, listings);
    }

    /** A call that storage answers in its first part only. */
    method ReadOn(file: File, n: int, first: seq<Entry>) returns (r: Read)
      requires Valid() && initialized && file.id in mem.cursors && Ready(file)
      requires n > 0 ==> |first| < n
      requires
        var from := mem.cursors[file.id].logical;
        && file.offset <= from && from + |first| <= |file.listing| && first == file.listing[from..from + |first|]
      modifies this`mem, this`directoryReads, file
      ensures Valid() && Ready(file) && old(mem).KeepsAllBut(mem, file.id) && file.id in mem.cursors
      ensures r == NativeRead(file.listing, old(mem.cursors[file.id].logical), n)
      ensures mem.cursors[file.id].logical == old(mem.cursors[file.id].logical) + |r.entries|
      ensures mem == Completed(old(mem), file.id, n, |first|,
                               NativeRead(file.listing, old(mem.cursors[file.id].logical) + |first|, Missing(n, |first|)))
    {
      hide Memory.Counted, Memory.Consistent, NativeRead;
      MemoryHolds(mem, file.id, listings);
      var from := mem.cursors[file.id].logical;
      var more;
      more, r := ReadBehind(file, n, first, from);
      mem := Complete(mem, file.id, n, |first|, more, listings);
      MemoryHolds(mem, file.id, listings);
    }

    /** The call on a file that has a cursor. */
    method ReadCached(file: File, n: int) returns (r: Read)
      requires Valid() && initialized && file.id in mem.cursors && Ready(file)
      modifies this`mem, this`directoryReads, this`cacheHits, file
      ensures Valid() && Ready(file) && old(mem).KeepsAllBut(mem, file.id)
      ensures file.id in mem.cursors
      ensures r == NativeRead(file.listing, old(mem.cursors[file.id].logical), n)
      ensures mem.cursors[file.id].logical == old(mem.cursors[file.id].logical) + |r.entries|
      ensures Whole(old(mem), file.id) ==> directoryReads == old(directoryReads) && file.offset == old(file.offset)
      ensures n <= 0 && old(HasRoom(mem, file.id, file.name, file.listing)) ==> Whole(mem, file.id)
      ensures old(mem.cursors[file.id].directory in mem.directories)
      ensures
        var cur := old(mem.cursors[file.id]);
        var dir := old(mem.directories[mem.cursors[file.id].directory]);
        cacheHits == old(cacheHits) + if cur.logical < |dir.entries| || (dir.complete && cur.logical == |dir.entries|) then 1 else 0
    {
      hide Memory.Counted, Memory.Bypasses, Memory.Consistent, Memory.KeepsAllBut, NativeRead, Completed, HasRoom;
      var cur := mem.cursors[file.id];
      MemoryHolds(mem, file.id, listings);
      var dir := mem.directories[cur.directory];
      StoredReadIsNative(dir, cur.logical, n, listings);
      var first, done, hit := TakeStored(dir, cur.logical, n);
      if hit {
        cacheHits := cacheHits + 1;
      }
      if done {
        Serve(file, n, first);
        return first;
      }
      if n <= 0 && HasRoom(mem, file.id, file.name, file.listing) {
        CompletedIsWhole(mem, file.id, file.name, n, |first.entries|, listings);
      }
      r := ReadOn(file, n, first.entries);
    }

    /** Directory reading for every use: whatever was stored, and whatever other files did, the
        caller sees what the bare file would have answered at this point. */
    method ReadDir(file: File, n: int, statOk: bool) returns (r: Read)
      requires Valid() && Ready(file)
      modifies this`mem, this`initialized, this`directoryReads, this`cacheHits, file
      ensures Valid() && initialized && Ready(file)
      ensures r.err == StatFailed ==>
        !statOk && r.entries == [] && View(file) == old(View(file)) && file.offset == old(file.offset)
      ensures r.err != StatFailed ==>
        r == NativeRead(file.listing, old(View(file)), n) && View(file) == old(View(file)) + |r.entries|
      ensures old(Finished(file)) ==> directoryReads == old(directoryReads) && file.offset == old(file.offset)
      ensures old(Started()).KeepsAllBut(mem, file.id)
      ensures n <= 0 && r.err == Ok && file.id in mem.cursors && old(HasRoom(Started(), file.id, file.name, file.listing)) ==> Whole(mem, file.id)
    {
      hide HasRoom, Whole, KnownWhole, Memory.KeepsAllBut;
      NothingWhole(mem, file.id, file.name, file.identity);
      Init();
      ghost var started := mem;
      var next, found, err := Locate(mem, file.id, file.name, file.identity, statOk, listings);
      StartedSame(mem, next, found, file.id, file.name, file.identity, file.listing);
      KeepsOn(started, next, next, file.id);
      mem := next;
      if err != Ok {
        return Read([], err);
      }
      if !found {
        r := Physical(file, n);
        return;
      }
      r := ReadCached(file, n);
      KeepsOn(started, next, mem, file.id);
    }
  }

  lemma NothingWhole(mem: Memory, id: FileId, name: Name, identity: Identity)
    ensures mem.directories == map[] ==> !KnownWhole(mem, id, name, identity)
  {
  }

  lemma KeepsOn(a: Memory, b: Memory, c: Memory, id: FileId)
    requires a.KeepsAllBut(b, id)
    ensures b.KeepsAllBut(c, id) ==> a.KeepsAllBut(c, id)
  {
  }

  lemma StartedSame(mem: Memory, next: Memory, found: bool, id: FileId, name: Name, identity: Identity, listing: seq<Entry>)
    requires id in mem.cursors || !found ==> next == mem
    requires !found ==> id !in mem.cursors
    requires id !in mem.cursors && found ==> next == WithCursor(WithDirectory(mem, name, identity), id, name)
    ensures HasRoom(mem, id, name, listing) ==> HasRoom(next, id, name, listing)
    ensures found && KnownWhole(mem, id, name, identity) ==> Whole(next, id)
    ensures !found ==> (mem.Bypasses(id, name, identity) ==> !KnownWhole(mem, id, name, identity))
  {
    if id !in mem.cursors && found {
      LocatedSame(mem, id, name, identity, listing);
    }
  }

  /** One call by the profilers: which open file, how many entries, and whether Stat would succeed. */
  datatype Call = Call(file: FileId, n: int, statOk: bool)

  /** A file as its caller sees it: the whole directory and the place reached. */
  datatype Stream = Stream(listing: seq<Entry>, offset: nat)

  type Streams = map<FileId, Stream>

  ghost predicate WellFormed(open: Streams, calls: seq<Call>) {
    && (forall f :: f in open ==> open[f].offset <= |open[f].listing|)
    && (forall c :: c in calls ==> c.file in open)
  }

  function Advance(s: Stream, r: Read): Stream {
    if r.err == StatFailed then s else s.(offset := s.offset + |r.entries|)
  }

  /** The streams after some answered calls. */
  ghost function After(open: Streams, calls: seq<Call>, results: seq<Read>): Streams
    requires |calls| == |results| && WellFormed(open, calls)
    ensures After(open, calls, results).Keys == open.Keys
    ensures forall f :: f in open ==> After(open, calls, results)[f].listing == open[f].listing
  {
    if calls == [] then open
    else
      var last := |calls| - 1;
      var before := After(open, calls[..last], results[..last]);
      before[calls[last].file := Advance(before[calls[last].file], results[last])]
  }

  /** Each call was answered as by a bare file of its own; only a failing Stat may refuse one. */
  ghost predicate AsNative(open: Streams, calls: seq<Call>, results: seq<Read>)
    requires |calls| == |results| && WellFormed(open, calls)
  {
    calls == [] ||
    var last := |calls| - 1;
    var c, r := calls[last], results[last];
    var s := After(open, calls[..last], results[..last])[c.file];
    && AsNative(open, calls[..last], results[..last])
    && s.offset <= |s.listing|
    && (r == NativeRead(s.listing, s.offset, c.n) || (!c.statOk && r == Read([], StatFailed)))
  }

  /** The run of the same calls without any cache. */
  ghost function NativeRun(open: Streams, calls: seq<Call>): (results: seq<Read>)
    requires WellFormed(open, calls)
    ensures |results| == |calls|
    ensures AsNative(open, calls, results)
  {
    if calls == [] then []
    else
      var last := |calls| - 1;
      var before := NativeRun(open, calls[..last]);
      var s := After(open, calls[..last], before)[calls[last].file];
      AsNativeInside(open, calls[..last], before);
      var r := NativeRead(s.listing, s.offset, calls[last].n);
      assert (before + [r])[..last] == before;
      before + [r]
  }

  lemma {:induction false} AsNativeInside(open: Streams, calls: seq<Call>, results: seq<Read>)
    requires |calls| == |results| && WellFormed(open, calls) && AsNative(open, calls, results)
    ensures forall f :: f in open ==> After(open, calls, results)[f].offset <= |open[f].listing|
  {
    if calls != [] {
      var last := |calls| - 1;
      AsNativeInside(open, calls[..last], results[..last]);
    }
  }

  /** The last call of a run whose Stat succeeds was answered natively. */
  lemma LastIsNative(open: Streams, calls: seq<Call>, results: seq<Read>)
    requires calls != [] && |calls| == |results| && WellFormed(open, calls) && AsNative(open, calls, results)
    requires calls[|calls| - 1].statOk
    ensures
      var last := |calls| - 1;
      var s := After(open, calls[..last], results[..last])[calls[last].file];
      && AsNative(open, calls[..last], results[..last])
      && s.offset <= |s.listing| && results[last] == NativeRead(s.listing, s.offset, calls[last].n)
  {
  }

  lemma NativeRunExtends(open: Streams, calls: seq<Call>)
    requires calls != [] && WellFormed(open, calls)
    ensures
      var last := |calls| - 1;
      var before := NativeRun(open, calls[..last]);
      var s := After(open, calls[..last], before)[calls[last].file];
      && s.offset <= |s.listing| && NativeRun(open, calls) == before + [NativeRead(s.listing, s.offset, calls[last].n)]
  {
    hide NativeRead;
    AsNativeInside(open, calls[..|calls| - 1], NativeRun(open, calls[..|calls| - 1]));
  }

  /** Whatever was interleaved, a run in which every Stat succeeds has exactly the uncached answers. */
  lemma {:induction false} AsNativeIsNativeRun(open: Streams, calls: seq<Call>, results: seq<Read>)
    requires |calls| == |results| && WellFormed(open, calls) && AsNative(open, calls, results)
    requires forall c :: c in calls ==> c.statOk
    ensures results == NativeRun(open, calls)
  {
    if calls != [] {
      var last := |calls| - 1;
      LastIsNative(open, calls, results);
      AsNativeIsNativeRun(open, calls[..last], results[..last]);
      NativeStep(open, calls, results);
    }
  }

  lemma NativeStep(open: Streams, calls: seq<Call>, results: seq<Read>)
    requires calls != [] && |calls| == |results| && WellFormed(open, calls) && AsNative(open, calls, results)
    requires calls[|calls| - 1].statOk && results[..|calls| - 1] == NativeRun(open, calls[..|calls| - 1])
    ensures results == NativeRun(open, calls)
  {
    hide After, AsNative, NativeRead, NativeRun;
    var last := |calls| - 1;
    LastIsNative(open, calls, results);
    NativeRunExtends(open, calls);
    assert results == results[..last] + [results[last]];
  }

  /** What one file's caller has received over a run. */
  function Received(f: FileId, calls: seq<Call>, results: seq<Read>): seq<Entry>
    requires |calls| == |results|
  {
    if calls == [] then []
    else
      var last := |calls| - 1;
      Received(f, calls[..last], results[..last]) + (if calls[last].file == f then results[last].entries else [])
  }

  lemma JoinStretches(listing: seq<Entry>, from: nat, mid: nat, to: nat)
    requires from <= mid <= to <= |listing|
    ensures listing[from..mid] + listing[mid..to] == listing[from..to]
  {
  }

  /** No entry is skipped, repeated or reordered for any file: its caller received exactly the
      stretch of the directory it moved over. */
  lemma {:induction false} ReceivedIsTheStretch(open: Streams, calls: seq<Call>, results: seq<Read>, f: FileId)
    requires |calls| == |results| && WellFormed(open, calls) && AsNative(open, calls, results) && f in open
    ensures open[f].offset <= After(open, calls, results)[f].offset <= |open[f].listing|
    ensures Received(f, calls, results) == open[f].listing[open[f].offset..After(open, calls, results)[f].offset]
  {
    if calls != [] {
      var last := |calls| - 1;
      ReceivedIsTheStretch(open, calls[..last], results[..last], f);
      AfterOneCall(open, calls, results, f);
      if calls[last].file == f {
        LastAnswer(open, calls, results);
      }
      StretchGrows(open[f].listing, open[f].offset, After(open, calls[..last], results[..last])[f], After(open, calls, results)[f],
                   Received(f, calls[..last], results[..last]), results[last], calls[last].file == f);
    }
  }

  lemma AfterOneCall(open: Streams, calls: seq<Call>, results: seq<Read>, f: FileId)
    requires calls != [] && |calls| == |results| && WellFormed(open, calls) && f in open
    ensures
      var last := |calls| - 1;
      var before := After(open, calls[..last], results[..last])[f];
      After(open, calls, results)[f] == if calls[last].file == f then Advance(before, results[last]) else before
  {
  }

  lemma StretchGrows(listing: seq<Entry>, from: nat, before: Stream, after: Stream, got: seq<Entry>, r: Read, own: bool)
    requires from <= before.offset <= |listing| && got == listing[from..before.offset]
    requires own ==> before.offset <= after.offset <= |listing| && r.entries == listing[before.offset..after.offset]
    requires !own ==> after == before
    ensures after.offset <= |listing| && got + (if own then r.entries else []) == listing[from..after.offset]
  {
    if own {
      JoinStretches(listing, from, before.offset, after.offset);
    }
  }

  /** The last answer gives the entries its caller moves over, none when it is refused. */
  lemma LastAnswer(open: Streams, calls: seq<Call>, results: seq<Read>)
    requires calls != [] && |calls| == |results| && WellFormed(open, calls) && AsNative(open, calls, results)
    ensures
      var last := |calls| - 1;
      var s := After(open, calls[..last], results[..last])[calls[last].file];
      var to := Advance(s, results[last]).offset;
      s.offset <= to <= |s.listing| && results[last].entries == s.listing[s.offset..to]
  {
    hide After;
  }

  lemma AsNativeExtend(open: Streams, calls: seq<Call>, before: seq<Read>, r: Read)
    requires calls != [] && |before| == |calls| - 1
    requires WellFormed(open, calls) && AsNative(open, calls[..|calls| - 1], before)
    ensures
      var c := calls[|calls| - 1];
      var streams := After(open, calls[..|calls| - 1], before);
      var s := streams[c.file];
      && After(open, calls, before + [r]) == streams[c.file := Advance(s, r)]
      && s.offset <= |s.listing|
      && (r == NativeRead(s.listing, s.offset, c.n) || (!c.statOk && r == Read([], StatFailed))
          ==> AsNative(open, calls, before + [r]))
  {
    AsNativeInside(open, calls[..|calls| - 1], before);
    assert (before + [r])[..|calls| - 1] == before;
  }

  ghost predicate AllReady(cache: Cache, files: map<FileId, File>)
    reads cache, files.Values
  {
    cache.Valid() && forall f :: f in files ==> files[f].id == f && cache.Ready(files[f])
  }

  /** One call disturbs no other file: each stays usable and its caller stays where it was. */
  method RunOne(cache: Cache, files: map<FileId, File>, c: Call) returns (r: Read)
    requires AllReady(cache, files) && c.file in files
    modifies cache, files[c.file]
    ensures AllReady(cache, files)
    ensures forall f :: f in files && f != c.file ==> cache.View(files[f]) == old(cache.View(files[f]))
    ensures
      var file := files[c.file];
      if r.err == StatFailed then !c.statOk && r.entries == [] && cache.View(file) == old(cache.View(file))
      else r == NativeRead(file.listing, old(cache.View(file)), c.n) && cache.View(file) == old(cache.View(file)) + |r.entries|
  {
    r := cache.ReadDir(files[c.file], c.n, c.statOk);
    forall f | f in files && f != c.file
      ensures cache.Ready(files[f]) && cache.View(files[f]) == old(cache.View(files[f]))
    {
      assert files[f] != files[c.file];
    }
  }

  /** Any interleaving of calls through one cache, over any open files, with any storage limits. */
  method RunCalls(cache: Cache, files: map<FileId, File>, calls: seq<Call>, ghost open: Streams)
    returns (results: seq<Read>)
    requires AllReady(cache, files)
    requires open.Keys == files.Keys
    requires forall f :: f in files ==> open[f] == Stream(files[f].listing, cache.View(files[f]))
    requires WellFormed(open, calls)
    modifies cache, files.Values
    ensures AllReady(cache, files)
    ensures |results| == |calls| && AsNative(open, calls, results)
    ensures forall f :: f in files ==> cache.View(files[f]) == After(open, calls, results)[f].offset
  {
    hide Cache.Valid, Cache.Ready, NativeRead;
    results := [];
    if calls != [] {
      var last := |calls| - 1;
      var before := RunCalls(cache, files, calls[..last], open);
      var r := RunOne(cache, files, calls[last]);
      AsNativeExtend(open, calls, before, r);
      results := before + [r];
    }
  }
}
