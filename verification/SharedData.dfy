/**
 The shared key-value store of the proxy-wasm host: every successful write gives the key a new tag, and a
 write with a non-zero tag succeeds only if the key still has it.
 */
module SharedData {
  import opened Options

  type Key = string
  type Value = string
  type Tag = x: int | 0 <= x < 0x1_0000_0000

  /** Number of different non-zero tags. */
  const CYCLE: int := 0xFFFF_FFFF

  datatype Entry = Entry(value: Value, cas: Tag)

  type Contents = map<Key, Entry>

  /** `cas.wrapping_add(1).max(1)`. */
  function NextTag(c: Tag): Tag {
    if c == CYCLE then 1 else c + 1
  }

  class Store {
    var entries: Contents

    constructor ()
      ensures entries == map[]
    {
      entries := map[];
    }

    method Get(key: Key) returns (r: Option<(Value, Tag)>)
      ensures r == Lookup(entries, key)
    {
      if key in entries {
        r := Some((entries[key].value, entries[key].cas));
      } else {
        r := None;
      }
    }

    method Set(key: Key, value: Value, cas: Tag) returns (ok: bool)
      modifies this
      ensures ok == Accepts(old(entries), Write(key, value, cas))
      ensures entries == After(old(entries), Write(key, value, cas))
    {
      // entry(key).or_default()
      if key !in entries {
        entries := entries[key := Entry("", 0)];
      }
      var entry := entries[key];
      if cas != 0 && cas != entry.cas {
        return false;
      }
      entries := entries[key := Entry(value, NextTag(entry.cas))];
      return true;
    }
  }

  // ---------------------------------------------------------------- writes as values

  datatype Write = Write(key: Key, value: Value, cas: Tag)

  function Lookup(m: Contents, key: Key): Option<(Value, Tag)> {
    if key in m then Some((m[key].value, m[key].cas)) else None
  }

  /** The tag a write is compared with; an absent key compares as 0. */
  function TagOf(m: Contents, key: Key): Tag {
    if key in m then m[key].cas else 0
  }

  predicate Accepts(m: Contents, w: Write) {
    w.cas == 0 || w.cas == TagOf(m, w.key)
  }

  /** A rejected write leaves the contents alone, except that it creates an absent key, empty and with tag 0. */
  function After(m: Contents, w: Write): Contents {
    if Accepts(m, w) then m[w.key := Entry(w.value, NextTag(TagOf(m, w.key)))]
    else if w.key in m then m
    else m[w.key := Entry("", 0)]
  }

  function Run(m: Contents, ws: seq<Write>): Contents {
    if ws == [] then m else After(Run(m, ws[..|ws| - 1]), ws[|ws| - 1])
  }

  /** How many writes of the run were accepted for this key. */
  function Accepted(m: Contents, ws: seq<Write>, key: Key): nat {
    if ws == [] then 0
    else
      var w := ws[|ws| - 1];
      Accepted(m, ws[..|ws| - 1], key) + if w.key == key && Accepts(Run(m, ws[..|ws| - 1]), w) then 1 else 0
  }

  // ---------------------------------------------------------------- tags

  /** The tag n accepted writes after tag c. */
  function TagAfter(c: Tag, n: nat): int {
    if n == 0 then c else if c == 0 then (n - 1) % CYCLE + 1 else (c - 1 + n) % CYCLE + 1
  }

  lemma TagAfterStep(c: Tag, n: nat)
    ensures 0 <= TagAfter(c, n) < 0x1_0000_0000
    ensures NextTag(TagAfter(c, n)) == TagAfter(c, n + 1)
  {
    var x := if c == 0 then n - 1 else c - 1 + n;
    if n > 0 || c > 0 { ModStep(x); }
  }

  lemma ModStep(x: nat)
    ensures (x + 1) % CYCLE == if x % CYCLE == CYCLE - 1 then 0 else x % CYCLE + 1
  {
  }

  /** Tags count accepted writes, on a cycle that leaves out 0. */
  lemma {:induction false} TagsCount(m: Contents, ws: seq<Write>, key: Key)
    ensures TagOf(Run(m, ws), key) == TagAfter(TagOf(m, key), Accepted(m, ws, key))
    decreases |ws|
  {
    hide TagAfter;
    if ws != [] {
      TagsCount(m, ws[..|ws| - 1], key);
      TagAfterStep(TagOf(m, key), Accepted(m, ws[..|ws| - 1], key));
    } else {
      TagAfterZero(TagOf(m, key));
    }
  }

  lemma TagAfterZero(c: Tag)
    ensures TagAfter(c, 0) == c
  {
  }

  lemma TagReturns(c: Tag, n: nat)
    requires c != 0
    ensures TagAfter(c, n) == c <==> n % CYCLE == 0
  {
    var q, r := n / CYCLE, n % CYCLE;
    assert n == CYCLE * q + r;
    ModAdd(c - 1, q, r);
  }

  lemma {:induction false} ModAdd(a: int, q: nat, r: int)
    requires 0 <= a < CYCLE && 0 <= r < CYCLE
    ensures (a + CYCLE * q + r) % CYCLE == if a + r < CYCLE then a + r else a + r - CYCLE
  {
    if q > 0 {
      ModAdd(a, q - 1, r);
      ModShift(a + CYCLE * (q - 1) + r);
    }
  }

  lemma ModShift(x: int)
    ensures (x + CYCLE) % CYCLE == x % CYCLE
  {
  }

  /**
   Compare-and-swap, exactly: after a read returned tag c (not 0), a write carrying c is accepted if and
   only if the number of writes accepted for that key in between is a multiple of 2^32 - 1.
   */
  lemma CasIff(m: Contents, ws: seq<Write>, w: Write)
    requires w.cas != 0 && Lookup(m, w.key).Some? && Lookup(m, w.key).value.1 == w.cas
    ensures Accepts(Run(m, ws), w) <==> Accepted(m, ws, w.key) % CYCLE == 0
  {
    TagsCount(m, ws, w.key);
    TagReturns(w.cas, Accepted(m, ws, w.key));
  }

  /** So with fewer than 2^32 - 1 of them in between, success means nobody else wrote. */
  lemma CasExcludesOthers(m: Contents, ws: seq<Write>, w: Write)
    requires w.cas != 0 && Lookup(m, w.key).Some? && Lookup(m, w.key).value.1 == w.cas
    requires Accepted(m, ws, w.key) < CYCLE && Accepts(Run(m, ws), w)
    ensures Accepted(m, ws, w.key) == 0
    ensures Lookup(Run(m, ws), w.key) == Lookup(m, w.key)
  {
    CasIff(m, ws, w);
    UntouchedWithoutAccepts(m, ws, w.key);
  }

  lemma {:induction false} UntouchedWithoutAccepts(m: Contents, ws: seq<Write>, key: Key)
    requires key in m && Accepted(m, ws, key) == 0
    ensures key in Run(m, ws) && Run(m, ws)[key] == m[key]
    decreases |ws|
  {
    if ws != [] { UntouchedWithoutAccepts(m, ws[..|ws| - 1], key); }
  }

  // ---------------------------------------------------------------- what a key holds

  /** The last value accepted for a key, if any. */
  function LastAccepted(ws: seq<Write>, key: Key): Option<Value> {
    if ws == [] then None
    else
      var w := ws[|ws| - 1];
      if w.key == key && Accepts(Run(map[], ws[..|ws| - 1]), w) then Some(w.value)
      else LastAccepted(ws[..|ws| - 1], key)
  }

  predicate Attempted(ws: seq<Write>, key: Key) {
    exists i :: 0 <= i < |ws| && ws[i].key == key
  }

  /**
   After any run from an empty store a key can be read exactly if someone tried to write it; it holds the
   last accepted value, or, if every attempt was rejected, the empty value under tag 0.  A tag is 0 only then.
   */
  lemma {:induction false} ReadAfterRun(ws: seq<Write>, key: Key)
    ensures Lookup(Run(map[], ws), key) ==
      if !Attempted(ws, key) then None
      else match LastAccepted(ws, key)
           case None => Some(("", 0))
           case Some(v) => Some((v, TagOf(Run(map[], ws), key)))
    ensures LastAccepted(ws, key).Some? ==> Attempted(ws, key) && TagOf(Run(map[], ws), key) != 0
    decreases |ws|
  {
    if ws != [] {
      var n := |ws| - 1;
      ReadAfterRun(ws[..n], key);
      assert Attempted(ws, key) <==> Attempted(ws[..n], key) || ws[n].key == key by {
        if Attempted(ws[..n], key) {
          var i :| 0 <= i < n && ws[..n][i].key == key;
          assert ws[i].key == key;
        }
        if i :| 0 <= i < n && ws[i].key == key { assert ws[..n][i].key == key; }
      }
    }
  }
}
