/** Hazard-pointer records, src/ck_hp.c:142-291: collecting hazards, and reclaiming the pending entries
  of a record by unlinking them in place. */
module Hazard {
  import opened Prelude

  const CACHE: nat := 512

  /** Another record as a scan finds it. A hazard pointer that is not set is 0. */
  datatype Subscriber = Subscriber(used: bool, pointers: Option<seq<int>>)

  ghost predicate Holds(s: Subscriber, x: int) {
    s.used && s.pointers.Some? && x in s.pointers.value
  }

  /** Some record from index i on, but before j, protects x. */
  ghost predicate HeldIn(subs: seq<Subscriber>, i: nat, j: nat, x: int) {
    exists r | i <= r < j && r < |subs| :: Holds(subs[r], x)
  }

  ghost predicate Hazardous(subs: seq<Subscriber>, x: int) {
    HeldIn(subs, 0, |subs|, x)
  }

  /** Which pending entries a reclamation keeps: those whose pointers are hazards. The cache holds no
    0, so that pointer is kept if the scan from the marker on finds a hazard pointer that is not set. */
  ghost predicate Keeps(subs: seq<Subscriber>, marker: nat, x: int) {
    if x != 0 then Hazardous(subs, x) else HeldIn(subs, marker, |subs|, 0)
  }

  ghost predicate Degree(subs: seq<Subscriber>, degree: nat) {
    forall r | 0 <= r < |subs| :: subs[r].pointers.Some? ==> |subs[r].pointers.value| == degree
  }

  /** `ck_hp_member_scan`. */
  method MemberScan(subs: seq<Subscriber>, marker: nat, degree: nat, x: int) returns (found: bool)
    requires marker < |subs| && Degree(subs, degree)
    ensures found <==> HeldIn(subs, marker, |subs|, x)
  {
    var r := marker;
    while r < |subs|
      invariant marker <= r <= |subs| && !HeldIn(subs, marker, r, x)
    {
      if subs[r].used && subs[r].pointers.Some? {
        var i := 0;
        while i < degree
          invariant i <= degree && x !in subs[r].pointers.value[..i]
        {
          if subs[r].pointers.value[i] == x {
            assert Holds(subs[r], x);
            return true;
          }
          i := i + 1;
        }
      }
      assert !Holds(subs[r], x);
      r := r + 1;
    }
    found := false;
  }

  /** What `ck_hp_member_cache` has collected: hazards only, and all those of the records before `done`. */
  ghost predicate Collected(subs: seq<Subscriber>, cache: seq<int>, done: nat) {
    && |cache| <= CACHE && 0 !in cache
    && (forall x | x in cache :: Hazardous(subs, x))
    && (forall x | x != 0 && HeldIn(subs, 0, done, x) :: x in cache)
  }

  /** `ck_hp_member_cache`. The marker is the number of records when all of them fitted. */
  method MemberCache(subs: seq<Subscriber>, degree: nat, cache: array<int>) returns (n: nat, marker: nat)
    requires cache.Length == CACHE && Degree(subs, degree)
    modifies cache
    ensures n <= CACHE && marker <= |subs| && Collected(subs, cache[..n], marker)
    ensures marker < |subs| ==> n == CACHE
  {
    n, marker := 0, 0;
    while marker < |subs|
      invariant n <= CACHE && marker <= |subs| && Collected(subs, cache[..n], marker)
    {
      var s := subs[marker];
      if s.used && s.pointers.Some? {
        var i := 0;
        while i < degree
          invariant i <= degree && n <= CACHE && Collected(subs, cache[..n], marker)
          invariant forall k | 0 <= k < i :: s.pointers.value[k] == 0 || s.pointers.value[k] in cache[..n]
        {
          if n >= CACHE { return; }
          var pointer := s.pointers.value[i];
          if pointer != 0 {
            cache[n] := pointer;
            n := n + 1;
            assert cache[..n] == cache[..n - 1] + [pointer];
            assert Holds(subs[marker], pointer);
          }
          i := i + 1;
        }
      }
      marker := marker + 1;
    }
  }

  // ---------------------------------------------------------------- sorted cache

  ghost predicate Sorted(s: seq<int>) {
    forall i, j | 0 <= i < j < |s| :: s[i] <= s[j]
  }

  function Insert(x: int, s: seq<int>): (r: seq<int>)
    ensures |r| == |s| + 1
  {
    if s == [] || x <= s[0] then [x] + s else [s[0]] + Insert(x, s[1..])
  }

  lemma {:induction false} InsertKeeps(x: int, s: seq<int>)
    ensures multiset(Insert(x, s)) == multiset{x} + multiset(s)
  {
    if s != [] && x > s[0] {
      InsertKeeps(x, s[1..]);
      assert s == [s[0]] + s[1..];
    }
  }

  lemma {:induction false} InsertSorts(x: int, s: seq<int>)
    requires Sorted(s)
    ensures Sorted(Insert(x, s))
  {
    if s != [] && x > s[0] {
      InsertSorts(x, s[1..]);
      InsertKeeps(x, s[1..]);
      var r := Insert(x, s[1..]);
      forall i | 0 <= i < |r| ensures s[0] <= r[i] {
        assert r[i] in multiset(r);
        assert r[i] == x || r[i] in s[1..];
      }
    }
  }

  function InOrder(s: seq<int>): (r: seq<int>)
    ensures |r| == |s|
  {
    if s == [] then [] else Insert(s[0], InOrder(s[1..]))
  }

  lemma {:induction false} OrderKeeps(s: seq<int>)
    ensures Sorted(InOrder(s)) && multiset(InOrder(s)) == multiset(s)
  {
    if s != [] {
      OrderKeeps(s[1..]);
      InsertSorts(s[0], InOrder(s[1..]));
      InsertKeeps(s[0], InOrder(s[1..]));
      assert s == [s[0]] + s[1..];
    }
  }

  /** `qsort` on the first n elements. */
  method Sort(a: array<int>, n: nat)
    requires n <= a.Length
    modifies a
    ensures Sorted(a[..n]) && multiset(a[..n]) == multiset(old(a[..n]))
  {
    var s := InOrder(a[..n]);
    OrderKeeps(a[..n]);
    forall i | 0 <= i < n { a[i] := s[i]; }
    assert a[..n] == s;
  }

  /** `bsearch` on the first n elements. */
  method Search(a: array<int>, n: nat, x: int) returns (found: bool)
    requires n <= a.Length && Sorted(a[..n])
    ensures found <==> x in a[..n]
  {
    var lo, hi := 0, n;
    while lo < hi
      invariant lo <= hi <= n
      invariant forall i | 0 <= i < lo :: a[..n][i] < x
      invariant forall i | hi <= i < n :: a[..n][i] > x
    {
      var mid := (lo + hi) / 2;
      assert a[mid] == a[..n][mid];
      if a[mid] == x { return true; }
      if a[mid] < x { lo := mid + 1; } else { hi := mid; }
    }
    found := false;
  }

  // ---------------------------------------------------------------- pending entries

  /** `struct ck_hp_hazard`. */
  class Entry {
    var pointer: int
    var data: int
    var next: Entry?

    constructor ()
    {
      pointer, data, next := 0, 0, null;
    }
  }

  ghost predicate LinkedAt(list: seq<Entry>, i: nat)
    requires i + 1 < |list|
    reads list
  {
    list[i].next == list[i + 1]
  }

  /** The entries of a list from `first` on, each linked to the following one. */
  ghost predicate Linked(first: Entry?, list: seq<Entry>)
    reads list
  {
    && first == (if list == [] then null else list[0])
    && (forall i | 0 <= i < |list| - 1 :: LinkedAt(list, i))
    && (list != [] ==> list[|list| - 1].next == null)
  }

  ghost predicate Distinct(list: seq<Entry>) {
    forall i, j | 0 <= i < j < |list| :: Differ(list, i, j)
  }

  ghost predicate Differ(list: seq<Entry>, i: nat, j: nat)
    requires i < |list| && j < |list|
  {
    list[i] != list[j]
  }

  ghost function Pointers(list: seq<Entry>): (p: seq<int>)
    reads list
    ensures |p| == |list| && forall i | 0 <= i < |p| :: p[i] == list[i].pointer
  {
    if list == [] then [] else [list[0].pointer] + Pointers(list[1..])
  }

  ghost function Datas(list: seq<Entry>): (d: seq<int>)
    reads list
    ensures |d| == |list| && forall i | 0 <= i < |d| :: d[i] == list[i].data
  {
    if list == [] then [] else [list[0].data] + Datas(list[1..])
  }

  ghost predicate Labelled(list: seq<Entry>, pointers: seq<int>, datas: seq<int>)
    reads list
  {
    |pointers| == |datas| == |list| && forall i | 0 <= i < |list| :: list[i].pointer == pointers[i] && list[i].data == datas[i]
  }

  /** Of the first k entries, in order: those that a reclamation keeps. */
  ghost function Kept(list: seq<Entry>, pointers: seq<int>, subs: seq<Subscriber>, marker: nat, k: nat): seq<Entry>
    requires k <= |list| == |pointers|
  {
    if k == 0 then []
    else Kept(list, pointers, subs, marker, k - 1) + if Keeps(subs, marker, pointers[k - 1]) then [list[k - 1]] else []
  }

  /** Of the first k entries, in order: the data of the others. */
  ghost function Freed(pointers: seq<int>, datas: seq<int>, subs: seq<Subscriber>, marker: nat, k: nat): seq<int>
    requires k <= |pointers| == |datas|
  {
    if k == 0 then []
    else Freed(pointers, datas, subs, marker, k - 1) + if Keeps(subs, marker, pointers[k - 1]) then [] else [datas[k - 1]]
  }

  /** Leaving out the entry at k - 1 moves the later ones up. */
  lemma Skips(kept: seq<Entry>, list: seq<Entry>, k: nat, i: nat)
    requires 0 < k <= |list| && i < |kept| + |list| - k
    ensures (kept + list[k..])[i] == (kept + list[k - 1..])[if i < |kept| then i else i + 1]
  {
    if i >= |kept| { assert list[k..][i - |kept|] == list[k - 1..][i + 1 - |kept|]; }
  }

  /** What is left of a list after k entries were seen: the kept ones, then the rest, all distinct. */
  lemma {:induction false} KeptDistinct(list: seq<Entry>, pointers: seq<int>, subs: seq<Subscriber>, marker: nat, k: nat)
    requires k <= |list| == |pointers| && Distinct(list)
    ensures Distinct(Kept(list, pointers, subs, marker, k) + list[k..])
  {
    if k > 0 {
      KeptDistinct(list, pointers, subs, marker, k - 1);
      var was := Kept(list, pointers, subs, marker, k - 1);
      if Keeps(subs, marker, pointers[k - 1]) {
        assert Kept(list, pointers, subs, marker, k) + list[k..] == was + list[k - 1..];
      } else {
        assert Kept(list, pointers, subs, marker, k) == was;
        var all := was + list[k - 1..];
        var rest := was + list[k..];
        forall i, j | 0 <= i < j < |rest| ensures Differ(rest, i, j) {
          var a, b := if i < |was| then i else i + 1, if j < |was| then j else j + 1;
          assert Differ(all, a, b);
          Skips(was, list, k, i);
          Skips(was, list, k, j);
        }
      }
    } else {
      assert Kept(list, pointers, subs, marker, 0) + list[0..] == list;
    }
  }

  /** `struct ck_hp_record`: the owner's part. */
  class Record {
    const cache: array<int>
    var pending: Entry?
    var nPending: nat
    var nPeak: nat
    ghost var list: seq<Entry>

    ghost predicate Valid()
      reads this, list
    {
      cache.Length == CACHE && Linked(pending, list) && Distinct(list) && nPending == |list|
    }

    constructor ()
      ensures Valid() && list == [] && fresh(cache)
    {
      cache := new int[CACHE];
      pending, nPending, nPeak, list := null, 0, 0, [];
    }

    /** `ck_hp_retire`. */
    method Retire(hazard: Entry, data: int, pointer: int)
      requires Valid() && hazard !in list
      modifies this, hazard
      ensures Valid() && list == [hazard] + old(list) && hazard.pointer == pointer && hazard.data == data
      ensures nPeak >= nPending && nPeak >= old(nPeak)
    {
      hazard.pointer, hazard.data, hazard.next := pointer, data, pending;
      pending := hazard;
      nPending := nPending + 1;
      if nPending > nPeak { nPeak := nPending; }
      ghost var was := list;
      list := [hazard] + list;
      forall i, j | 0 <= i < j < |list| ensures Differ(list, i, j) {
        assert if i == 0 then list[j] in was else Differ(was, i - 1, j - 1);
      }
      forall i | 0 <= i < |list| - 1 ensures LinkedAt(list, i) { assert i > 0 ==> old(LinkedAt(was, i - 1)); }
    }

    /** Whether a pending entry must be kept: by the sorted cache, and from the marker on by a new scan. */
    method Match(subs: seq<Subscriber>, degree: nat, n: nat, marker: nat, x: int) returns (held: bool)
      requires cache.Length == CACHE && n <= CACHE && Sorted(cache[..n]) && marker <= |subs| && Degree(subs, degree)
      requires Collected(subs, cache[..n], marker)
      ensures held <==> Keeps(subs, marker, x)
    {
      held := Search(cache, n, x);
      if !held && marker < |subs| {
        held := MemberScan(subs, marker, degree, x);
      }
      assert x != 0 && Hazardous(subs, x) ==> HeldIn(subs, 0, marker, x) || HeldIn(subs, marker, |subs|, x);
    }

    /** Taking an entry out of the list, which is `kept`, then the entry, then `rest`. */
    method Unlink(previous: Entry?, entry: Entry, ghost kept: seq<Entry>, ghost rest: seq<Entry>, ghost nodes: set<Entry>)
      requires Linked(pending, list) && Distinct(list) && list == kept + [entry] + rest && nPending == |list|
      requires previous == if kept == [] then null else kept[|kept| - 1]
      requires forall e | e in list :: e in nodes
      modifies this`pending, this`list, this`nPending, nodes`next
      ensures list == kept + rest && Linked(pending, list) && nPending == |list|
    {
      nPending := nPending - 1;
      ghost var was := list;
      assert forall j | 0 <= j < |was| - 1 :: LinkedAt(was, j);
      assert entry == was[|kept|] && (rest != [] ==> was[|kept| + 1] == rest[0]);
      assert rest != [] ==> LinkedAt(was, |kept|);
      assert kept != [] ==> LinkedAt(was, |kept| - 1);
      label Before:
      if previous != null {
        assert previous == was[|kept| - 1];
        previous.next := entry.next;
      } else {
        pending := entry.next;
      }
      list := kept + rest;
      forall i | 0 <= i < |list| - 1 ensures LinkedAt(list, i) {
        var j := if i < |kept| then i else i + 1;
        assert list[i] == was[j];
        if j == |kept| - 1 {
          assert list[i + 1] == rest[0];
        } else {
          assert list[i + 1] == was[j + 1] && old@Before(LinkedAt(was, j));
          assert kept != [] ==> Differ(was, if j < |kept| - 1 then j else |kept| - 1, if j < |kept| - 1 then |kept| - 1 else j);
        }
      }
      if rest != [] {
        assert list[|list| - 1] == was[|was| - 1] && (kept != [] ==> Differ(was, |kept| - 1, |was| - 1));
      }
    }

    /** The loop of `ck_hp_reclaim` has seen k entries of `all`, and kept those that a reclamation keeps. */
    ghost predicate Scanning(all: seq<Entry>, pointers: seq<int>, subs: seq<Subscriber>, marker: nat, k: nat,
                             previous: Entry?, entry: Entry?)
      reads this, list
    {
      && k <= |all| == |pointers| && Distinct(all)
      && list == Kept(all, pointers, subs, marker, k) + all[k..]
      && Linked(pending, list) && Distinct(list) && nPending == |list|
      && entry == (if k < |all| then all[k] else null)
      && var kept := Kept(all, pointers, subs, marker, k);
         previous == if kept == [] then null else kept[|kept| - 1]
    }

    /** One round of that loop. */
    method Visit(subs: seq<Subscriber>, ghost marker: nat, previous: Entry?, entry: Entry, held: bool,
                 ghost all: seq<Entry>, ghost pointers: seq<int>, ghost k: nat, ghost nodes: set<Entry>)
      returns (previous': Entry?, entry': Entry?)
      requires Scanning(all, pointers, subs, marker, k, previous, entry) && k < |all|
      requires held <==> Keeps(subs, marker, pointers[k])
      requires forall e | e in list :: e in nodes
      modifies this`pending, this`list, this`nPending, nodes`next
      ensures Scanning(all, pointers, subs, marker, k + 1, previous', entry')
      ensures forall e | e in list :: e in old(list)
    {
      ghost var kept := Kept(all, pointers, subs, marker, k);
      assert all[k..] == [entry] + all[k + 1..];
      assert list == kept + [entry] + all[k + 1..];
      assert list[|kept|] == entry && (k + 1 < |all| ==> list[|kept| + 1] == all[k + 1] && LinkedAt(list, |kept|));
      entry' := entry.next;
      KeptDistinct(all, pointers, subs, marker, k + 1);
      if held {
        previous' := entry;
        assert list == Kept(all, pointers, subs, marker, k + 1) + all[k + 1..];
      } else {
        previous' := previous;
        Unlink(previous, entry, kept, all[k + 1..], nodes);
        assert Kept(all, pointers, subs, marker, k + 1) == kept;
      }
    }

    /** The loop's body: the test for a match, then the unlinking or not. */
    method Round(subs: seq<Subscriber>, degree: nat, n: nat, marker: nat, previous: Entry?, entry: Entry,
                 ghost all: seq<Entry>, ghost pointers: seq<int>, ghost datas: seq<int>, ghost k: nat, ghost nodes: set<Entry>)
      returns (previous': Entry?, entry': Entry?, data: int, held: bool)
      requires Scanning(all, pointers, subs, marker, k, previous, entry) && k < |all|
      requires Labelled(all, pointers, datas) && Degree(subs, degree)
      requires cache.Length == CACHE && n <= CACHE && marker <= |subs|
      requires Sorted(cache[..n]) && Collected(subs, cache[..n], marker)
      requires forall e | e in list :: e in nodes
      modifies this`pending, this`list, this`nPending, nodes`next
      ensures Scanning(all, pointers, subs, marker, k + 1, previous', entry') && Labelled(all, pointers, datas)
      ensures held <==> Keeps(subs, marker, pointers[k])
      ensures data == datas[k]
      ensures forall e | e in list :: e in old(list)
    {
      data := entry.data;
      held := Match(subs, degree, n, marker, entry.pointer);
      previous', entry' := Visit(subs, marker, previous, entry, held, all, pointers, k, nodes);
    }

    /** Collecting the hazards, and sorting them. */
    method Prepare(subs: seq<Subscriber>, degree: nat) returns (n: nat, marker: nat)
      requires cache.Length == CACHE && Degree(subs, degree)
      modifies cache
      ensures n <= CACHE && marker <= |subs| && Sorted(cache[..n]) && Collected(subs, cache[..n], marker)
      ensures marker < |subs| ==> n == CACHE
    {
      n, marker := MemberCache(subs, degree, cache);
      ghost var hazards := cache[..n];
      Sort(cache, n);
      assert forall x :: x in cache[..n] <==> x in multiset(cache[..n]);
      assert forall x :: x in hazards <==> x in multiset(hazards);
    }

    /** The loop of `ck_hp_reclaim`. */
    method Scan(subs: seq<Subscriber>, degree: nat, n: nat, marker: nat,
                ghost all: seq<Entry>, ghost pointers: seq<int>, ghost datas: seq<int>, ghost nodes: set<Entry>)
      returns (destroyed: seq<int>)
      requires list == all && Linked(pending, all) && Distinct(all) && nPending == |all| && Degree(subs, degree)
      requires Labelled(all, pointers, datas)
      requires cache.Length == CACHE && n <= CACHE && marker <= |subs|
      requires Sorted(cache[..n]) && Collected(subs, cache[..n], marker)
      requires forall e | e in list :: e in nodes
      modifies this`pending, this`list, this`nPending, nodes`next
      ensures list == Kept(all, pointers, subs, marker, |all|) && Linked(pending, list) && Distinct(list) && nPending == |list|
      ensures Labelled(all, pointers, datas) && destroyed == Freed(pointers, datas, subs, marker, |all|)
    {
      var previous: Entry?, entry: Entry? := null, pending;
      destroyed := [];
      ghost var k, hazards := 0, cache[..n];
      assert list == Kept(all, pointers, subs, marker, 0) + all[0..];
      while entry != null
        invariant Scanning(all, pointers, subs, marker, k, previous, entry)
        invariant destroyed == Freed(pointers, datas, subs, marker, k)
        invariant cache[..n] == hazards
        invariant Labelled(all, pointers, datas) && forall e | e in list :: e in nodes
        decreases |all| - k
      {
        var data, held;
        previous, entry, data, held := Round(subs, degree, n, marker, previous, entry, all, pointers, datas, k, nodes);
        if !held { destroyed := destroyed + [data]; }
        k := k + 1;
      }
    }

    /** `ck_hp_reclaim`, while no other record changes: exactly the entries whose pointers are hazards
      stay, in order, and all others are destroyed. The marker is the first record that the cache does not
      cover; it can be one only if the cache is full. */
    method Reclaim(subs: seq<Subscriber>, degree: nat) returns (destroyed: seq<int>, ghost marker: nat)
      requires Valid() && Degree(subs, degree)
      modifies this`pending, this`list, this`nPending, cache, list`next
      ensures Valid()
      ensures list == Kept(old(list), old(Pointers(list)), subs, marker, |old(list)|)
      ensures destroyed == Freed(old(Pointers(list)), old(Datas(list)), subs, marker, |old(list)|)
      ensures marker <= |subs| && (marker < |subs| ==> 0 !in cache[..])
    {
      ghost var all, pointers, datas := list, Pointers(list), Datas(list);
      var n, from := Prepare(subs, degree);
      marker := from;
      assert n == CACHE ==> cache[..n] == cache[..];
      destroyed := Scan(subs, degree, n, from, all, pointers, datas, set e | e in list);
    }
  }
}
