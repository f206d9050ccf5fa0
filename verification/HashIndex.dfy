/**
 The open-addressed indexes. `src/router.c` has three copies of this code (literal buckets,
 wildcard buckets, last values) and `src/patchbay/pb_eval.c` a fourth (state slots); they differ
 only in the key type and in when the table is first built.

 Nothing is assumed of the hash function. A capacity is always a power of two, so masking a hash
 with `cap - 1` is `% cap`.
 */
module HashIndex {

  datatype Cell = Free | Used(hash: nat, index: nat)

  // ----- probing -----

  /** The cell `d` steps after `start`, wrapping once. */
  function Pos(start: nat, d: nat, cap: nat): (p: nat)
    requires start < cap && d < cap
    ensures p < cap
  {
    if start + d < cap then start + d else start + d - cap
  }

  function Dist(start: nat, cell: nat, cap: nat): (d: nat)
    requires start < cap && cell < cap
    ensures d < cap && Pos(start, d, cap) == cell
  {
    if start <= cell then cell - start else cell + cap - start
  }

  ghost predicate Path(cells: seq<Cell>, start: nat, d: nat)
    requires start < |cells| && d <= |cells|
  {
    forall e | 0 <= e < d :: cells[Pos(start, e, |cells|)].Used?
  }

  /**
   `at[i]` is where entry `i` sits: its cell carries its hash and index, the probe path from its
   home to it has no gap, and no other cell is used.
   */
  ghost predicate Table<K>(cells: seq<Cell>, hash: K -> nat, keys: seq<K>, at: seq<nat>) {
    |cells| > 0 && |at| == |keys| &&
    (forall i | 0 <= i < |keys| ::
      at[i] < |cells| && cells[at[i]] == Used(hash(keys[i]), i) &&
      Path(cells, hash(keys[i]) % |cells|, Dist(hash(keys[i]) % |cells|, at[i], |cells|))) &&
    (forall c | 0 <= c < |cells| && cells[c].Used? :: cells[c].index < |keys| && at[cells[c].index] == c)
  }

  // ----- a table that is not full has a free cell -----

  ghost function Below(n: nat): (s: set<nat>)
    ensures |s| == n
    ensures forall x: nat :: x in s <==> x < n
  {
    if n == 0 then {} else Below(n - 1) + {n - 1}
  }

  ghost function Elements(s: seq<nat>): (r: set<nat>)
    ensures |r| <= |s|
    ensures forall x: nat :: x in r <==> x in s
  {
    if s == [] then {} else {s[0]} + Elements(s[1..])
  }

  lemma {:induction false} SubsetSize(a: set<nat>, b: set<nat>)
    requires a <= b
    ensures |a| <= |b|
  {
    if a != {} {
      var x :| x in a;
      SubsetSize(a - {x}, b - {x});
    }
  }

  lemma {:induction false} Outside(n: nat, at: seq<nat>) returns (c: nat)
    requires |at| < n
    ensures c < n && c !in at
  {
    var used := Elements(at);
    if Below(n) <= used {
      SubsetSize(Below(n), used);
      assert false;
    }
    c :| c in Below(n) && c !in used;
  }

  /** Probing terminates: fewer entries than cells leave a free cell on every probe sequence. */
  lemma {:induction false} FreeCell<K>(cells: seq<Cell>, hash: K -> nat, keys: seq<K>, at: seq<nat>, start: nat) returns (d: nat)
    requires Table(cells, hash, keys, at) && |keys| < |cells| && start < |cells|
    ensures d < |cells| && cells[Pos(start, d, |cells|)].Free?
  {
    var c := Outside(|cells|, at);
    d := Dist(start, c, |cells|);
  }

  // ----- index_insert and the *_index_find loops -----

  /** `index_insert`, `state_index_insert`. */
  method InsertCell<K>(cells: array<Cell>, h: nat, index: nat,
                       ghost hash: K -> nat, ghost keys: seq<K>, ghost at: seq<nat>, ghost key: K)
    returns (ghost slot': nat)
    requires Table(cells[..], hash, keys, at) && |keys| < cells.Length
    requires h == hash(key) && index == |keys|
    modifies cells
    ensures Table(cells[..], hash, keys + [key], at + [slot'])
  {
    ghost var stop := FreeCell(cells[..], hash, keys, at, h % cells.Length);
    var slot;
    ghost var d;
    slot, d := FirstFree(cells, h % cells.Length, stop);
    slot' := slot;
    ghost var was := cells[..];
    cells[slot] := Used(h, index);
    assert cells[..] == was[slot := Used(h, index)];
    TableExtend(was, hash, keys, at, key, slot, d);
  }

  /** Follow the probe sequence to its first free cell. */
  method FirstFree(cells: array<Cell>, start: nat, ghost stop: nat) returns (slot: nat, ghost d: nat)
    requires start < cells.Length && stop < cells.Length && cells[Pos(start, stop, cells.Length)].Free?
    ensures d < cells.Length && slot == Pos(start, d, cells.Length) && cells[slot].Free? && Path(cells[..], start, d)
  {
    slot := start;
    d := 0;
    while cells[slot].Used?
      invariant 0 <= d <= stop && slot == Pos(start, d, cells.Length)
      invariant forall e :: 0 <= e < d ==> cells[Pos(start, e, cells.Length)].Used?
      decreases stop - d
    {
      slot := if slot + 1 == cells.Length then 0 else slot + 1;
      d := d + 1;
    }
  }

  lemma {:induction false} TableExtend<K>(cells: seq<Cell>, hash: K -> nat, keys: seq<K>, at: seq<nat>, key: K, slot: nat, d: nat)
    requires Table(cells, hash, keys, at)
    requires d < |cells| && slot == Pos(hash(key) % |cells|, d, |cells|) && cells[slot].Free?
    requires Path(cells, hash(key) % |cells|, d)
    ensures Table(cells[slot := Used(hash(key), |keys|)], hash, keys + [key], at + [slot])
  {
    var cells', keys', at' := cells[slot := Used(hash(key), |keys|)], keys + [key], at + [slot];
    forall i | 0 <= i < |keys'|
      ensures at'[i] < |cells'| && cells'[at'[i]] == Used(hash(keys'[i]), i)
      ensures Path(cells', hash(keys'[i]) % |cells'|, Dist(hash(keys'[i]) % |cells'|, at'[i], |cells'|))
    {
      if i < |keys| {
        assert keys'[i] == keys[i] && at'[i] == at[i];
        assert Path(cells, hash(keys[i]) % |cells|, Dist(hash(keys[i]) % |cells|, at[i], |cells|));
      } else {
        assert Dist(hash(key) % |cells|, slot, |cells|) == d;
      }
    }
  }

  /** `literal_index_find`, `wildcard_index_find`, `lvc_index_find`, `state_index_find`; -1 is `SIZE_MAX`. */
  method Probe<K(==)>(cells: array<Cell>, h: nat, key: K, keys: seq<K>, ghost hash: K -> nat, ghost at: seq<nat>)
    returns (found: int)
    requires Table(cells[..], hash, keys, at) && |keys| < cells.Length
    requires h == hash(key)
    ensures -1 <= found < |keys|
    ensures found >= 0 ==> keys[found] == key
    ensures found == -1 ==> key !in keys
  {
    var cap := cells.Length;
    var start := h % cap;
    var slot := start;
    ghost var stop := FreeCell(cells[..], hash, keys, at, start);
    ghost var d := 0;
    while true
      invariant 0 <= d <= stop && slot == Pos(start, d, cap)
      invariant forall e :: 0 <= e < d ==>
        var c := cells[Pos(start, e, cap)]; c.Used? && !(c.hash == h && keys[c.index] == key)
      decreases stop - d
    {
      if cells[slot].Free? {
        forall i | 0 <= i < |keys|
          ensures keys[i] != key
        {
          var home := hash(keys[i]) % cap;
          var e := Dist(home, at[i], cap);
          assert cells[..][at[i]] == Used(hash(keys[i]), i) && Path(cells[..], home, e);
        }
        return -1;
      }
      if cells[slot].hash == h && keys[cells[slot].index] == key {
        return cells[slot].index;
      }
      slot := if slot + 1 == cap then 0 else slot + 1;
      d := d + 1;
    }
    assert false;
    found := -1;
  }

  // ----- capacity -----

  ghost predicate PowerOfTwo(n: nat) {
    n == 1 || (n > 1 && n % 2 == 0 && PowerOfTwo(n / 2))
  }

  /** `next_index_cap`, `state_index_cap_for`. */
  method NextCap(needed: nat) returns (cap: nat)
    ensures cap >= 16 && cap >= needed && PowerOfTwo(cap)
    ensures cap > 16 ==> cap < 2 * needed
  {
    cap := 16;
    while cap < needed
      invariant cap >= 16 && PowerOfTwo(cap)
      invariant cap > 16 ==> cap < 2 * needed
      decreases 2 * needed - cap
    {
      cap := cap * 2;
    }
  }

  function SwapRemove<T>(s: seq<T>, i: nat): (r: seq<T>)
    requires i < |s|
    ensures |r| == |s| - 1
  {
    if i == |s| - 1 then s[..i] else s[..|s| - 1][i := s[|s| - 1]]
  }

  ghost predicate Distinct<T>(s: seq<T>) {
    forall i, j :: 0 <= i < j < |s| ==> s[i] != s[j]
  }

  /** Swap-remove drops exactly the entry at `i`, whatever order is left. */
  lemma {:induction false} SwapRemoveMultiset<T>(s: seq<T>, i: nat)
    requires i < |s|
    ensures multiset(SwapRemove(s, i)) == multiset(s) - multiset{s[i]}
  {
    var n := |s| - 1;
    assert s == s[..n] + [s[n]];
    if i < n {
      assert s[..n] == s[..i] + [s[i]] + s[i + 1..n];
      assert SwapRemove(s, i) == s[..i] + [s[n]] + s[i + 1..n];
    }
  }

  /** A vector of distinct keys and the index over it. */
  class Index<K(==)> {
    const hash: K -> nat
    var keys: seq<K>
    var cells: array<Cell>  // empty until the table is first built
    ghost var at: seq<nat>

    ghost predicate Valid()
      reads this, cells
    {
      Distinct(keys) &&
      (cells.Length > 0 ==>
        PowerOfTwo(cells.Length) && 2 * |keys| < cells.Length && Table(cells[..], hash, keys, at))
    }

    constructor (hash: K -> nat)
      ensures Valid() && fresh(cells) && keys == [] && this.hash == hash
    {
      this.hash := hash;
      keys, at := [], [];
      cells := new Cell[0];
    }

    /** Probe the table, or scan the vector while there is none. */
    method Find(key: K) returns (found: int)
      requires Valid()
      ensures -1 <= found < |keys|
      ensures found >= 0 ==> keys[found] == key
      ensures found == -1 <==> key !in keys
    {
      if cells.Length == 0 {
        for i := 0 to |keys|
          invariant key !in keys[..i]
        {
          if keys[i] == key {
            return i;
          }
        }
        return -1;
      }
      found := Probe(cells, hash(key), key, keys, hash, at);
    }

    /** Insert every key of the vector into a cleared table. */
    method Fill()
      requires Distinct(keys) && PowerOfTwo(cells.Length) && 2 * |keys| < cells.Length
      requires forall c :: 0 <= c < cells.Length ==> cells[c].Free?
      modifies this`at, cells
      ensures Valid()
    {
      at := [];
      for i := 0 to |keys|
        invariant |at| == i && Table(cells[..], hash, keys[..i], at)
      {
        ghost var slot := InsertCell(cells, hash(keys[i]), i, hash, keys[..i], at, keys[i]);
        at := at + [slot];
        assert keys[..i + 1] == keys[..i] + [keys[i]];
      }
      assert keys[..|keys|] == keys;
    }

    /** `literal_index_ensure` and its copies: make room for `needed` entries. */
    method Ensure(needed: nat)
      requires Valid() && |keys| <= needed && 0 < needed
      modifies this`cells, this`at
      ensures Valid() && (cells == old(cells) || fresh(cells)) && 2 * needed < cells.Length
    {
      if cells.Length != 0 && needed < cells.Length / 2 {
        return;
      }
      var cap := NextCap(needed * 4);
      cells := new Cell[cap](_ => Free);
      Fill();
    }

    /** `literal_index_refresh` and its copy. */
    method Refresh()
      requires Distinct(keys)
      requires cells.Length > 0 ==> PowerOfTwo(cells.Length) && 2 * |keys| < cells.Length
      modifies this`at, cells
      ensures Valid()
    {
      if cells.Length == 0 {
        return;
      }
      for i := 0 to cells.Length
        invariant forall c :: 0 <= c < i ==> cells[c].Free?
      {
        cells[i] := Free;
      }
      Fill();
    }

    /** Append a key that is not there yet to a table that has room. */
    method Append(key: K)
      requires Valid() && key !in keys
      requires cells.Length > 0 ==> 2 * (|keys| + 1) < cells.Length
      modifies this`keys, this`at, cells
      ensures Valid() && keys == old(keys) + [key]
    {
      if cells.Length != 0 {
        ghost var slot := InsertCell(cells, hash(key), |keys|, hash, keys, at, key);
        at := at + [slot];
      }
      keys := keys + [key];
    }

    /** `literal_bucket`, `wildcard_bucket`, and the entry lookup and creation of `lvc_store`. */
    method Bucket(key: K, create: bool) returns (i: int)
      requires Valid()
      modifies this`keys, this`cells, this`at, cells
      ensures Valid() && (cells == old(cells) || fresh(cells))
      ensures key in old(keys) || !create ==> keys == old(keys)
      ensures key !in old(keys) && create ==> keys == old(keys) + [key]
      ensures i >= 0 <==> key in keys
      ensures i >= 0 ==> i < |keys| && keys[i] == key
      ensures i < 0 ==> i == -1
    {
      i := Find(key);
      if i >= 0 || !create {
        return;
      }
      Ensure(|keys| + 1);
      Append(key);
      i := |keys| - 1;
    }

    /** `state_slot`: the vector is scanned until it holds eight entries, indexed from then on. */
    method StateSlot(key: K) returns (i: nat)
      requires Valid()
      modifies this`keys, this`cells, this`at, cells
      ensures Valid() && (cells == old(cells) || fresh(cells))
      ensures keys == if key in old(keys) then old(keys) else old(keys) + [key]
      ensures i < |keys| && keys[i] == key
      ensures cells.Length == 0 <==> old(cells.Length) == 0 && |old(keys)| < 8
    {
      if cells.Length == 0 && |keys| >= 8 {
        Ensure(|keys|);
      }
      var found := Find(key);
      if found >= 0 {
        return found;
      }
      if cells.Length != 0 || |keys| >= 8 {
        Ensure(|keys| + 1);
      }
      Append(key);
      i := |keys| - 1;
    }

    /** `remove_literal_bucket_at`, `remove_wildcard_bucket_at`. */
    method RemoveAt(i: nat)
      requires Valid() && i < |keys|
      modifies this`keys, this`at, cells
      ensures Valid() && keys == SwapRemove(old(keys), i)
    {
      keys := SwapRemove(keys, i);
      Refresh();
    }
  }
}
