/**
 The file driver: one file per key, named by a fingerprint of the key. Two keys
 may share a file; the key inside it tells them apart.
 */
module FileStore {
  import opened Basics
  import opened CacheFlat

  type Path = string

  const LOCKS := 16

  /** A document, or something that cannot be read as one. */
  datatype File = Document(key: Key, entry: Entry) | Garbage

  type Files = map<Path, File>

  // ----- Fingerprints -----

  function HexChar(d: nat): char
    requires d < 16
  {
    "0123456789abcdef"[d]
  }

  /** The last `width` base-sixteen digits of a number. */
  function Hex(n: nat, width: nat): (s: string)
    ensures |s| == width
  {
    if width == 0 then [] else Hex(n / 16, width - 1) + [HexChar(n % 16)]
  }

  function Pow16(width: nat): nat {
    if width == 0 then 1 else 16 * Pow16(width - 1)
  }

  lemma {:induction false} HexIsInjective(m: nat, n: nat, width: nat)
    requires m < Pow16(width) && n < Pow16(width) && Hex(m, width) == Hex(n, width)
    ensures m == n
    decreases width
  {
    if width > 0 {
      var s, t := Hex(m, width), Hex(n, width);
      assert s[..width - 1] == Hex(m / 16, width - 1) && t[..width - 1] == Hex(n / 16, width - 1);
      assert s[width - 1] == HexChar(m % 16) && t[width - 1] == HexChar(n % 16);
      DigitsDiffer(m % 16, n % 16);
      HexIsInjective(m / 16, n / 16, width - 1);
    }
  }

  lemma DigitsDiffer(c: nat, d: nat)
    requires c < 16 && d < 16
    ensures HexChar(c) == HexChar(d) <==> c == d
  {}

  /** The two hashes of a key, each `width` base-sixteen digits long. */
  datatype Hashes = Hashes(forward: Key -> nat, backward: Key -> nat, width: nat) {
    ghost predicate Fits() {
      forall k :: forward(k) < Pow16(width) && backward(k) < Pow16(width)
    }

    function Fingerprint(k: Key): Path {
      Hex(forward(k), width) + Hex(backward(k), width)
    }

    function LockOf(k: Key): nat {
      forward(k) % LOCKS
    }
  }

  /** Keys that share a file share a lock. */
  lemma SameFileSameLock(h: Hashes, k: Key, l: Key)
    requires h.Fits() && h.Fingerprint(k) == h.Fingerprint(l)
    ensures h.LockOf(k) == h.LockOf(l)
  {
    var a, b := h.Fingerprint(k), h.Fingerprint(l);
    assert a[..h.width] == Hex(h.forward(k), h.width) && b[..h.width] == Hex(h.forward(l), h.width);
    HexIsInjective(h.forward(k), h.forward(l), h.width);
  }

  // ----- One file -----

  /** What a file says about a key: nothing if it is missing, unreadable, or another key's. */
  function Holding(files: Files, path: Path, k: Key): Option<Entry> {
    if path in files && files[path].Document? && files[path].key == k then Some(files[path].entry) else None
  }

  function KeysIn(files: Files): set<Key> {
    set p | p in files && files[p].Document? :: files[p].key
  }

  /** The flat map the files stand for: each key by what its own file says. */
  function Flatten(files: Files, path: Key -> Path): (m: Flat)
    ensures forall k :: k in m <==> Holding(files, path(k), k).Some?
    ensures forall k :: k in m ==> m[k] == Holding(files, path(k), k).value
  {
    map k | k in KeysIn(files) && Holding(files, path(k), k).Some? :: Holding(files, path(k), k).value
  }

  /** The map without the keys that share a file with `k`. */
  function Others(m: Flat, path: Key -> Path, k: Key): Flat {
    map x | x in m && path(x) != path(k) :: m[x]
  }

  lemma WriteFlattens(files: Files, path: Key -> Path, k: Key, e: Entry)
    ensures Flatten(files[path(k) := Document(k, e)], path) == Others(Flatten(files, path), path, k)[k := e]
  {
    hide KeysIn;
  }

  lemma RemoveFlattens(files: Files, path: Key -> Path, k: Key)
    ensures Flatten(files - {path(k)}, path) == Others(Flatten(files, path), path, k)
  {
    hide KeysIn;
  }

  lemma SameAlone(files: Files, path: Key -> Path, k: Key)
    requires Holding(files, path(k), k).Some?
    ensures Others(Flatten(files, path), path, k) == Flatten(files, path) - {k}
  {
    hide KeysIn;
  }

  lemma OthersAfterRead(m: Flat, n: Flat, path: Key -> Path, k: Key)
    requires n == m || n == m - {k}
    ensures Others(m, path, k) == Others(n, path, k)
  {}

  /** The deadline an increment writes: the old one if the counter still lives at the second reading, else none. */
  function Deadline(m: Flat, k: Key, c: int): Option<int> {
    if Live(m, k, c) then m[k].deadline else None
  }

  class FileStore {
    const path: Key -> Path
    const parse: Parse
    var files: Files

    ghost function Contents(): Flat
      reads this
    {
      Flatten(files, path)
    }

    constructor (path: Key -> Path, parse: Parse, files: Files)
      ensures this.path == path && this.parse == parse && this.files == files
    {
      this.path := path;
      this.parse := parse;
      this.files := files;
    }

    /** Read a key. A file of another key is a miss; an expired one is deleted. */
    method Get(k: Key, now: int) returns (r: Option<Value>)
      modifies this
      ensures r == Lookup(old(Contents()), k, now)
      ensures Contents() == if k in old(Contents()) && r.None? then old(Contents()) - {k} else old(Contents())
    {
      hide Flatten;
      var p := path(k);
      if p !in files || files[p].Garbage? || files[p].key != k {
        return None;
      }
      var e := files[p].entry;
      if e.Expired(now) {
        SameAlone(files, path, k);
        RemoveFlattens(files, path, k);
        files := files - {p};
        return None;
      }
      r := Some(e.value);
    }

    method Write(k: Key, e: Entry)
      modifies this
      ensures Contents() == Others(old(Contents()), path, k)[k := e]
    {
      WriteFlattens(files, path, k, e);
      files := files[path(k) := Document(k, e)];
    }

    method Put(k: Key, v: Value, ttl: nat, now: int)
      modifies this
      ensures ttl > 0 ==> Contents() == Others(old(Contents()), path, k)[k := Entry(v, Some(now + ttl))]
      ensures ttl == 0 ==> Contents() == Others(old(Contents()), path, k)
    {
      hide Flatten;
      if ttl == 0 {
        RemoveFlattens(files, path, k);
        files := files - {path(k)};
        return;
      }
      Write(k, Entry(v, Some(now + ttl)));
    }

    method Forget(k: Key, now: int) returns (existed: bool)
      modifies this
      ensures existed <==> Lookup(old(Contents()), k, now).Some?
      ensures Contents() == Others(old(Contents()), path, k)
    {
      hide Flatten;
      var found := Get(k, now);
      existed := found.Some?;
      RemoveFlattens(files, path, k);
      files := files - {path(k)};
    }

    /** Increment without a time to live of its own. The clock is read twice. */
    method Increment(k: Key, delta: int, c1: int, c2: int) returns (next: int)
      requires c1 <= c2
      modifies this
      ensures next == (if Live(old(Contents()), k, c1) then Counter(parse, old(Contents())[k].value) else 0) + delta
      ensures Contents() == Others(old(Contents()), path, k)[k := Entry(Number(next), Deadline(old(Contents()), k, c2))]
    {
      hide Flatten;
      var found := Get(k, c1);
      next := (if found.Some? then Counter(parse, found.value) else 0) + delta;
      var deadline := Expiry(k, c2);
      OthersAfterRead(old(Contents()), Contents(), path, k);
      hide Others;
      Write(k, Entry(Number(next), deadline));
    }

    /** The deadline of a key that lives at `now`. */
    method Expiry(k: Key, now: int) returns (deadline: Option<int>)
      ensures deadline == Deadline(Contents(), k, now)
    {
      var p := path(k);
      if p !in files || files[p].Garbage? || files[p].key != k {
        return None;
      }
      if files[p].entry.Expired(now) {
        return None;
      }
      deadline := files[p].entry.deadline;
    }

    /** Increment a counter that lives for `ttl` from its creation. */
    method IncrementWithin(k: Key, delta: int, ttl: nat, c1: int, c2: int) returns (next: int)
      requires c1 <= c2
      modifies this
      ensures next == (if Live(old(Contents()), k, c1) then Counter(parse, old(Contents())[k].value) else 0) + delta
      ensures Contents() == Others(old(Contents()), path, k)[
        k := Entry(Number(next), if Live(old(Contents()), k, c1) then Deadline(old(Contents()), k, c2)
            else Some(c2 + ttl))]
    {
      hide Flatten;
      var found := Get(k, c1);
      OthersAfterRead(old(Contents()), Contents(), path, k);
      hide Others;
      if found.Some? {
        next := Counter(parse, found.value) + delta;
        var deadline := Expiry(k, c2);
        Write(k, Entry(Number(next), deadline));
      } else {
        next := delta;
        Write(k, Entry(Number(delta), Some(c2 + ttl)));
      }
    }
  }

  /**
   An increment of a live counter keeps its deadline exactly if the deadline
   does not fall between the two clock readings; if it does, the counter is
   counted on and never expires again.
   */
  lemma DeadlineIsKept(m: Flat, k: Key, c1: int, c2: int)
    requires Live(m, k, c1) && c1 <= c2 && m[k].deadline.Some?
    ensures Deadline(m, k, c2) == m[k].deadline <==> c2 < m[k].deadline.value
    ensures m[k].deadline.value <= c2 ==> Deadline(m, k, c2) == None
  {}
}
