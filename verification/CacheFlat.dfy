/**
 The flat expiring map every cache driver stands for: what each operation does
 to it and answers, given the clock reading the operation works with.
 */
module CacheFlat {
  import opened Basics

  type Key = string

  /** What a key holds. Only counters are looked into. */
  datatype Value = Number(n: int) | Text(s: string) | Other(json: string)

  /** A stored value; no deadline means it was stored for good. */
  datatype Entry = Entry(value: Value, deadline: Option<int>) {
    predicate Expired(now: int) {
      deadline.Some? && deadline.value <= now
    }
  }

  type Flat = map<Key, Entry>

  /** How a string that stands for a counter is read: whatever it is, it is a function of the string. */
  type Parse = string -> int

  /** The counter a value stands for; what is not a number counts as zero. */
  function Counter(parse: Parse, v: Value): int {
    match v
    case Number(n) => n
    case Text(s) => parse(s)
    case Other(_) => 0
  }

  predicate Live(m: Flat, k: Key, now: int) {
    k in m && !m[k].Expired(now)
  }

  // ----- Answers -----

  function Lookup(m: Flat, k: Key, now: int): Option<Value> {
    if Live(m, k, now) then Some(m[k].value) else None
  }

  /** The time a key has left; none for a missing key and for one stored for good. */
  function TimeLeft(m: Flat, k: Key, now: int): Option<int> {
    if Live(m, k, now) && m[k].deadline.Some? then Some(m[k].deadline.value - now) else None
  }

  // ----- Effects -----

  /** The entry an increment leaves: a live counter keeps its deadline, a new one gets its own. */
  function Bumped(parse: Parse, m: Flat, k: Key, delta: int, ttl: Option<nat>, now: int, start: int): Entry {
    if Live(m, k, now) then Entry(Number(Counter(parse, m[k].value) + delta), m[k].deadline)
    else Entry(Number(delta), if ttl.Some? then Some(start + ttl.value) else None)
  }

  /** Only what has not expired. */
  function Unexpired(m: Flat, now: int): Flat {
    map k | k in m && !m[k].Expired(now) :: m[k]
  }
}
