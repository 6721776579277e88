/** The table that gives every name and version string of dpkg one index: open addressing with double hashing. */
module NameTable {
  import opened Bits
  import opened Options
  import opened Divisors
  import opened VersionOrder

  const NAME_HASH_PRIME := 16381

  // --- The prime ---

  lemma {:induction false} SixteenMore(n: nat, f: nat)
    requires f >= 2 && NoDivisor(n, f)
    requires n % f != 0 && n % (f + 1) != 0 && n % (f + 2) != 0 && n % (f + 3) != 0
    requires n % (f + 4) != 0 && n % (f + 5) != 0 && n % (f + 6) != 0 && n % (f + 7) != 0
    requires n % (f + 8) != 0 && n % (f + 9) != 0 && n % (f + 10) != 0 && n % (f + 11) != 0
    requires n % (f + 12) != 0 && n % (f + 13) != 0 && n % (f + 14) != 0 && n % (f + 15) != 0
    ensures NoDivisor(n, f + 16)
  {
  }

  lemma {:induction false} NoneYet(n: nat)
    ensures NoDivisor(n, 2)
  {
  }

  lemma {:induction false} NoDivisorTo66()
    ensures NoDivisor(16381, 66)
  {
    hide *;
    NoneYet(16381);
    SixteenMore(16381, 2);
    SixteenMore(16381, 18);
    SixteenMore(16381, 34);
    SixteenMore(16381, 50);
  }

  lemma {:induction false} HashPrime()
    ensures Prime(16381)
  {
    hide *;
    NoDivisorTo66();
    SixteenMore(16381, 66);
    SixteenMore(16381, 82);
    SixteenMore(16381, 98);
    SixteenMore(16381, 114);
    NoSmallDivisor(16381, 127, 127);
  }

  /** A prime divides no product of two smaller numbers. */
  lemma {:induction false} NoZeroProduct(p: nat, k: nat, d: nat)
    requires Prime(p) && 0 < k < p && 0 < d < p
    ensures (k * d) % p != 0
    decreases d
  {
    if d == 1 {
      SmallMod(k, p);
    } else {
      var q, r: nat := p / d, p % d;
      DivModParts(p, d);
      NoZeroProduct(p, k, r);
      if (k * d) % p == 0 {
        var m := DivisorOf(p, k * d);
        RemainderProduct(p, k, d, q, r, m);
      }
    }
  }

  lemma {:induction false} RemainderProduct(p: nat, k: nat, d: nat, q: nat, r: nat, m: nat)
    requires p > 0 && p == d * q + r && k * d == p * m
    ensures (k * r) % p == 0
  {
    assert k * p == k * (d * q) + k * r;
    assert k * (d * q) == (k * d) * q by {
      MulAssoc(k, d, q);
    }
    assert (p * m) * q == p * (m * q) by {
      MulAssoc(p, m, q);
    }
    assert k * r == p * k - p * (m * q) == p * (k - m * q);
    NonNegativeFactor(p, k - m * q);
    MultipleMod(p, k - m * q);
  }

  lemma {:induction false} NonNegativeFactor(p: nat, x: int)
    requires p > 0 && p * x >= 0
    ensures x >= 0
  {
  }

  lemma {:induction false} SmallMod(k: nat, p: nat)
    requires k < p
    ensures k % p == k
  {
  }

  // --- Hashing ---

  /** The character at i added to the sum, with the one before, shifted by an amount that depends on both. */
  function Mixed(sum: nat, c: byte, before: byte, i: nat): nat {
    (sum + (c + before) * Pow2(c * i % 24)) % 0x1_0000_0000_0000_0000
  }

  /** What make_hash has added up when it has read the first n characters. */
  function HashSum(key: Text, n: nat): nat
    requires n <= |key|
  {
    if n == 0 then 0
    else if n == 1 then key[0]
    else Mixed(HashSum(key, n - 1), key[n - 1], key[n - 2], n - 1)
  }

  function Start(key: Text): (a: nat)
    ensures a < NAME_HASH_PRIME
  {
    HashSum(key, |key|) % 0x1_0000_0000 % NAME_HASH_PRIME
  }

  function Step(key: Text): (d: nat)
    ensures 0 < d < NAME_HASH_PRIME
  {
    1 + HashSum(key, |key|) % (NAME_HASH_PRIME - 1)
  }

  /** make_hash. */
  method MakeHash(key: Text) returns (start: nat, decrement: nat)
    ensures start == Start(key) && decrement == Step(key)
  {
    hide Mixed;
    var hashNum: nat := if key == [] then 0 else key[0];
    var i := 1;
    while i < |key|
      invariant key == [] || 1 <= i <= |key|
      invariant key == [] ==> hashNum == 0
      invariant key != [] ==> hashNum == HashSum(key, i)
    {
      hashNum := Mixed(hashNum, key[i], key[i - 1], i);
      i := i + 1;
    }
    start := hashNum % 0x1_0000_0000 % NAME_HASH_PRIME;
    decrement := 1 + hashNum % (NAME_HASH_PRIME - 1);
  }

  // --- Probing ---

  /** The k-th slot tried for a key. */
  function Probe(key: Text, k: nat): (a: nat)
    ensures a < NAME_HASH_PRIME
  {
    if k == 0 then Start(key)
    else
      var a := Probe(key, k - 1);
      if a < Step(key) then a + NAME_HASH_PRIME - Step(key) else a - Step(key)
  }

  /** Stepping back j times moves by j steps modulo the prime. */
  lemma {:induction false} ProbeMoves(key: Text, i: nat, j: nat) returns (q: nat)
    requires i <= j
    ensures Probe(key, i) - (j - i) * Step(key) == Probe(key, j) - q * NAME_HASH_PRIME
    decreases j - i
  {
    hide Step, Start;
    if i == j {
      q := 0;
    } else {
      var r := ProbeMoves(key, i, j - 1);
      q := if Probe(key, j - 1) < Step(key) then r + 1 else r;
      assert (j - i) * Step(key) == (j - 1 - i) * Step(key) + Step(key);
    }
  }

  /** No slot is tried twice before all have been tried. */
  lemma {:induction false} ProbesDiffer(key: Text, i: nat, j: nat)
    requires i < j < i + NAME_HASH_PRIME
    ensures Probe(key, i) != Probe(key, j)
  {
    hide Step, Start, Probe, Prime;
    var q := ProbeMoves(key, i, j);
    HashPrime();
    NoZeroProduct(NAME_HASH_PRIME, j - i, Step(key));
    MultipleMod(NAME_HASH_PRIME, q);
  }

  type Slots = s: seq<Option<Text>> | |s| == NAME_HASH_PRIME + 1 witness seq(NAME_HASH_PRIME + 1, _ => None)

  /** The key would be looked for at its k-th slot: the slots before are taken. */
  ghost predicate Reaches(t: Slots, key: Text, k: nat) {
    forall i :: 0 <= i < k ==> t[Probe(key, i)].Some?
  }

  ghost predicate Found(t: Slots, key: Text, a: nat) {
    exists k: nat :: Probe(key, k) == a && Reaches(t, key, k)
  }

  /** Every name stored can be found, and no name is stored twice. */
  ghost predicate Interned(t: Slots) {
    && (forall a :: 0 <= a < NAME_HASH_PRIME && t[a].Some? ==> Found(t, t[a].value, a))
    && (forall a, b :: 0 <= a < b < NAME_HASH_PRIME && t[a].Some? ==> t[a] != t[b])
  }

  ghost predicate Holds(t: Slots, key: Text) {
    exists a :: 0 <= a < NAME_HASH_PRIME && t[a] == Some(key)
  }

  ghost predicate HasRoom(t: Slots) {
    exists a :: 0 <= a < NAME_HASH_PRIME && t[a].None?
  }

  /** The slots before the k-th hold other names. */
  ghost predicate Passed(t: Slots, key: Text, k: nat) {
    Reaches(t, key, k) && forall i :: 0 <= i < k ==> t[Probe(key, i)] != Some(key)
  }

  /** Storing an absent key where its search ended keeps the table searchable. */
  lemma {:induction false} StoreKeeps(t: Slots, key: Text, k: nat)
    requires Interned(t) && Passed(t, key, k) && t[Probe(key, k)].None?
    ensures Interned(t[Probe(key, k) := Some(key)])
  {
    hide Probe, Step, Start;
    var c := Probe(key, k);
    var u: Slots := t[c := Some(key)];
    forall a | 0 <= a < NAME_HASH_PRIME && u[a].Some?
      ensures Found(u, u[a].value, a)
    {
      if a == c {
        assert Reaches(u, key, k);
      } else {
        assert Found(t, t[a].value, a);
        var m: nat :| Probe(t[a].value, m) == a && Reaches(t, t[a].value, m);
        assert Reaches(u, t[a].value, m);
      }
    }
    forall a, b | 0 <= a < b < NAME_HASH_PRIME && u[a].Some?
      ensures u[a] != u[b]
    {
      if a == c || b == c {
        assert t[a] != Some(key) && t[b] != Some(key);
      }
    }
  }

  function SlotNumbers(n: nat): (r: set<nat>)
    ensures |r| == n && forall a :: a in r <==> 0 <= a < n
  {
    if n == 0 then {} else SlotNumbers(n - 1) + {n - 1}
  }

  /** A search passes fewer slots than there are while one of them would end it. */
  lemma {:induction false} SearchEnds(t: Slots, key: Text, k: nat, visited: set<nat>)
    requires Holds(t, key) || HasRoom(t)
    requires Passed(t, key, k) && Visits(key, k, visited)
    ensures k < NAME_HASH_PRIME
  {
    hide Probe, Step, Start;
    var goal :| 0 <= goal < NAME_HASH_PRIME && (t[goal] == Some(key) || t[goal].None?);
    forall a | a in visited
      ensures 0 <= a < NAME_HASH_PRIME && a != goal
    {
      var i :| 0 <= i < k && Probe(key, i) == a;
      assert t[Probe(key, i)].Some?;
    }
    OneLeft(visited, NAME_HASH_PRIME, goal);
  }

  /** A search goes on for ever exactly in a full table without the name. */
  lemma {:induction false} NeverEnds(t: Slots, key: Text)
    ensures (forall k: nat :: Passed(t, key, k)) <==> !Holds(t, key) && !HasRoom(t)
  {
    hide Probe, Step, Start;
    if forall k: nat :: Passed(t, key, k) {
      var visited := AllVisited(key, NAME_HASH_PRIME);
      assert Passed(t, key, NAME_HASH_PRIME);
      if Holds(t, key) || HasRoom(t) {
        SearchEnds(t, key, NAME_HASH_PRIME, visited);
      }
    }
  }

  lemma {:induction false} AllVisited(key: Text, k: nat) returns (visited: set<nat>)
    requires k <= NAME_HASH_PRIME
    ensures Visits(key, k, visited)
  {
    hide Probe, Step, Start;
    if k == 0 {
      visited := {};
    } else {
      var before := AllVisited(key, k - 1);
      visited := before + {Probe(key, k - 1)};
      if Probe(key, k - 1) in before {
        var i :| 0 <= i < k - 1 && Probe(key, i) == Probe(key, k - 1);
        ProbesDiffer(key, i, k - 1);
      }
    }
  }

  lemma {:induction false} OneLeft(visited: set<nat>, n: nat, goal: nat)
    requires goal < n && forall a :: a in visited ==> a < n && a != goal
    ensures |visited| < n
  {
    SubsetSize(visited + {goal}, SlotNumbers(n));
  }

  lemma {:induction false} SubsetSize<T>(a: set<T>, b: set<T>)
    requires a <= b
    ensures |a| <= |b|
  {
    if a != {} {
      var x :| x in a;
      SubsetSize(a - {x}, b - {x});
    }
  }

  // --- The table ---

  class Names {
    var slots: array<Option<Text>>

    ghost predicate Valid()
      reads this, slots
    {
      slots.Length == NAME_HASH_PRIME + 1 && Interned(slots[..])
    }

    constructor ()
      ensures Valid() && fresh(slots)
      ensures forall key :: !Holds(slots[..], key)
    {
      slots := new Option<Text>[NAME_HASH_PRIME + 1](_ => None);
      new;
      assert forall a :: 0 <= a < NAME_HASH_PRIME ==> slots[..][a].None?;
    }

    /** search_name_hashtable: the index where the name was already, or a free one where it is now; no other entry
        changes. */
    method Search(key: Text) returns (index: nat)
      requires Valid() && (Holds(slots[..], key) || HasRoom(slots[..]))
      modifies slots
      ensures Valid() && slots == old(slots) && Searched(old(slots[..]), slots[..], key, index)
    {
      hide Probe, Step, Start, HashSum, Interned, Holds, HasRoom, Passed, Prime, NoDivisor;
      ghost var t := slots[..];
      var probeAddress, probeDecrement := MakeHash(key);
      ghost var k: nat, visited: set<nat> := 0, {};
      FirstProbe(t, key);
      while slots[probeAddress].Some?
        invariant slots[..] == t && k < NAME_HASH_PRIME && probeAddress == Probe(key, k)
        invariant Passed(t, key, k) && Visits(key, k, visited)
        decreases NAME_HASH_PRIME - k
      {
        if slots[probeAddress].value == key {
          HoldsAt(t, key, probeAddress);
          index := probeAddress;
          return;
        }
        NextProbe(t, key, k, visited);
        visited, k := visited + {probeAddress}, k + 1;
        if probeAddress < probeDecrement {
          probeAddress := probeAddress + NAME_HASH_PRIME - probeDecrement;
        } else {
          probeAddress := probeAddress - probeDecrement;
        }
      }
      StoreKeeps(t, key, k);
      FreeMeansAbsent(t, key, k);
      slots[probeAddress] := Some(key);
      assert slots[..] == t[probeAddress := Some(key)];
      index := probeAddress;
    }

    /** Any run of searches: equal names get equal indices, different names different ones, and every index given
        out, now or before, stays good. */
    method SearchAll(keys: seq<Text>, ghost all: set<Text>) returns (indices: seq<nat>)
      requires Valid() && Within(slots[..], all) && |all| <= NAME_HASH_PRIME
      requires forall i :: 0 <= i < |keys| ==> keys[i] in all
      modifies slots
      ensures Valid() && slots == old(slots) && |indices| == |keys|
      ensures forall i :: 0 <= i < |keys| ==> indices[i] < NAME_HASH_PRIME && slots[indices[i]] == Some(keys[i])
      ensures forall i, j :: 0 <= i < |keys| && 0 <= j < |keys| ==> (indices[i] == indices[j] <==> keys[i] == keys[j])
      ensures Keeps(old(slots[..]), slots[..])
    {
      hide Interned, Holds, HasRoom, Within, Searched;
      indices := [];
      while |indices| < |keys|
        invariant Valid() && slots == old(slots) && Within(slots[..], all) && |indices| <= |keys|
        invariant forall i :: 0 <= i < |indices| ==> Given(slots[..], keys[i], indices[i])
        invariant Keeps(old(slots[..]), slots[..])
      {
        var key := keys[|indices|];
        ghost var t := slots[..];
        RoomForAnother(t, all, key);
        var index := Search(key);
        SearchKeeps(t, slots[..], all, key, index);
        indices := indices + [index];
      }
      forall i, j | 0 <= i < |keys| && 0 <= j < |keys|
        ensures indices[i] == indices[j] <==> keys[i] == keys[j]
      {
        NamedOnce(slots[..], keys[i], indices[i], keys[j], indices[j]);
      }
    }
  }

  /** What a search does to the table t: the name is where it was, or where there was room. */
  ghost predicate Searched(t: Slots, u: Slots, key: Text, index: nat) {
    && index < NAME_HASH_PRIME
    && u == t[index := Some(key)]
    && (if Holds(t, key) then t[index] == Some(key) else t[index].None?)
  }

  ghost predicate Given(t: Slots, key: Text, index: nat) {
    index < NAME_HASH_PRIME && t[index] == Some(key)
  }

  ghost predicate Keeps(t: Slots, u: Slots) {
    forall a :: 0 <= a < |t| && t[a].Some? ==> u[a] == t[a]
  }

  /** The names stored are among these. */
  ghost predicate Within(t: Slots, all: set<Text>) {
    forall a :: 0 <= a < NAME_HASH_PRIME && t[a].Some? ==> t[a].value in all
  }

  lemma {:induction false} SearchKeeps(t: Slots, u: Slots, all: set<Text>, key: Text, index: nat)
    requires Searched(t, u, key, index) && Within(t, all) && key in all
    ensures Keeps(t, u) && Within(u, all) && Given(u, key, index)
  {
  }

  lemma {:induction false} NamedOnce(t: Slots, key: Text, index: nat, key': Text, index': nat)
    requires Interned(t) && Given(t, key, index) && Given(t, key', index')
    ensures index == index' <==> key == key'
  {
    if index < index' {
      assert t[index] != t[index'];
    } else if index' < index {
      assert t[index'] != t[index];
    }
  }

  /** While the names in use fit into the table, a new one finds room. */
  lemma {:induction false} RoomForAnother(t: Slots, all: set<Text>, key: Text)
    requires Interned(t) && Within(t, all) && key in all && |all| <= NAME_HASH_PRIME
    ensures Holds(t, key) || HasRoom(t)
  {
    if !Holds(t, key) && !HasRoom(t) {
      var names := NamesTo(t, NAME_HASH_PRIME);
      SubsetSize(names + {key}, all);
    }
  }

  /** The names of a full table: as many as its slots. */
  lemma {:induction false} NamesTo(t: Slots, n: nat) returns (names: set<Text>)
    requires Interned(t) && n <= NAME_HASH_PRIME && !HasRoom(t)
    ensures |names| == n && forall x :: x in names ==> exists a :: 0 <= a < n && t[a] == Some(x)
  {
    hide Found;
    names := {};
    if n > 0 {
      var fewer := NamesTo(t, n - 1);
      assert t[n - 1].Some?;
      names := fewer + {t[n - 1].value};
      forall x | x in names
        ensures exists a :: 0 <= a < n && t[a] == Some(x)
      {
        if x in fewer {
          var a :| 0 <= a < n - 1 && t[a] == Some(x);
          assert 0 <= a < n && t[a] == Some(x);
        } else {
          assert 0 <= n - 1 < n && t[n - 1] == Some(x);
        }
      }
    }
  }

  /** The set of the first k slots tried. */
  ghost predicate Visits(key: Text, k: nat, visited: set<nat>) {
    |visited| == k && forall a :: a in visited ==> exists i :: 0 <= i < k && Probe(key, i) == a
  }

  lemma {:induction false} FirstProbe(t: Slots, key: Text)
    ensures Probe(key, 0) == Start(key) && Passed(t, key, 0) && Visits(key, 0, {})
  {
  }

  lemma {:induction false} HoldsAt(t: Slots, key: Text, a: nat)
    requires a < NAME_HASH_PRIME && t[a] == Some(key)
    ensures Holds(t, key) && t[a := Some(key)] == t
  {
  }

  lemma {:induction false} NextProbe(t: Slots, key: Text, k: nat, visited: set<nat>)
    requires Holds(t, key) || HasRoom(t)
    requires Passed(t, key, k) && Visits(key, k, visited) && k < NAME_HASH_PRIME
    requires t[Probe(key, k)].Some? && t[Probe(key, k)] != Some(key)
    ensures Passed(t, key, k + 1) && Visits(key, k + 1, visited + {Probe(key, k)}) && k + 1 < NAME_HASH_PRIME
    ensures var a := Probe(key, k);
            Probe(key, k + 1) == if a < Step(key) then a + NAME_HASH_PRIME - Step(key) else a - Step(key)
  {
    hide Step, Start, HashSum, Holds, HasRoom;
    var a := Probe(key, k);
    if a in visited {
      var i :| 0 <= i < k && Probe(key, i) == a;
      ProbesDiffer(key, i, k);
    }
    assert Visits(key, k + 1, visited + {a}) by {
      forall b | b in visited + {a}
        ensures exists i :: 0 <= i < k + 1 && Probe(key, i) == b
      {
        if b in visited {
          var i :| 0 <= i < k && Probe(key, i) == b;
          assert 0 <= i < k + 1 && Probe(key, i) == b;
        } else {
          assert 0 <= k < k + 1 && Probe(key, k) == b;
        }
      }
    }
    SearchEnds(t, key, k + 1, visited + {a});
  }

  lemma {:induction false} FreeMeansAbsent(t: Slots, key: Text, k: nat)
    requires Interned(t) && Passed(t, key, k) && t[Probe(key, k)].None?
    ensures !Holds(t, key)
  {
  }
}
