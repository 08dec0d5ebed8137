/** One staker's bond in one unbonding period: free stake plus entries locked until a timestamp
    (contracts/stake/src/state.rs). Times are in nanoseconds. */
module Bonding {
  import opened Results

  datatype Lock = Lock(expires: nat, amount: nat)

  /** The stored form of a bond. */
  datatype Bond = Bond(stake: nat, locked: seq<Lock>)

  const EMPTY := Bond(0, [])

  function LockedSum(locked: seq<Lock>): nat {
    if locked == [] then 0 else LockedSum(locked[..|locked| - 1]) + locked[|locked| - 1].amount
  }

  function Total(b: Bond): nat {
    b.stake + LockedSum(b.locked)
  }

  /** The locked entries whose expiry is later than `now`, in order. */
  function StillLocked(locked: seq<Lock>, now: nat): seq<Lock> {
    if locked == [] then []
    else
      var rest := StillLocked(locked[..|locked| - 1], now);
      var last := locked[|locked| - 1];
      if last.expires <= now then rest else rest + [last]
  }

  /** The locked tokens that become free by `deadline`. */
  function FreeBy(locked: seq<Lock>, deadline: nat): nat {
    if locked == [] then 0
    else
      var last := locked[|locked| - 1];
      FreeBy(locked[..|locked| - 1], deadline) + if last.expires <= deadline then last.amount else 0
  }

  function FreeUnlocked(b: Bond, now: nat): Bond {
    Bond(b.stake + FreeBy(b.locked, now), StillLocked(b.locked, now))
  }

  function Release(b: Bond, now: nat, amount: nat): Result<Bond> {
    var freed := FreeUnlocked(b, now);
    if amount <= freed.stake then Ok(freed.(stake := freed.stake - amount)) else Err(Overflow)
  }

  function AddUnlocked(b: Bond, amount: nat): Bond {
    b.(stake := b.stake + amount)
  }

  /** The lexicographic order of (timestamp, amount) pairs. */
  predicate Precedes(a: Lock, b: Lock) {
    a.expires < b.expires || (a.expires == b.expires && a.amount < b.amount)
  }

  datatype Position = Found(at: nat) | Missing(at: nat)

  /** Bisection of `locked[left..right]` for `key`. */
  function Search(locked: seq<Lock>, key: Lock, left: nat, right: nat): (p: Position)
    requires left <= right <= |locked|
    ensures left <= p.at <= right
    ensures p.Found? ==> p.at < right && locked[p.at] == key
    decreases right - left
  {
    if left == right then Missing(left)
    else
      var mid := left + (right - left) / 2;
      if Precedes(locked[mid], key) then Search(locked, key, mid + 1, right)
      else if Precedes(key, locked[mid]) then Search(locked, key, left, mid)
      else Found(mid)
  }

  function Insert(locked: seq<Lock>, key: Lock): seq<Lock> {
    match Search(locked, key, 0, |locked|)
    case Found(at) => locked[at := Lock(key.expires, locked[at].amount + key.amount)]
    case Missing(at) => locked[..at] + [key] + locked[at..]
  }

  function AddLocked(b: Bond, expires: nat, amount: nat): Bond {
    b.(locked := Insert(b.locked, Lock(expires, amount)))
  }

  /** "Sorted by expiry timestamp", as the storage layout promises. */
  ghost predicate SortedByExpiry(locked: seq<Lock>) {
    forall i, j | 0 <= i < j < |locked| :: locked[i].expires <= locked[j].expires
  }

  // ---- what the operations mean ----

  lemma {:induction false} FreeByConcat(a: seq<Lock>, b: seq<Lock>, t: nat)
    ensures FreeBy(a + b, t) == FreeBy(a, t) + FreeBy(b, t)
    ensures LockedSum(a + b) == LockedSum(a) + LockedSum(b)
  {
    if b == [] {
      assert a + b == a;
    } else {
      assert (a + b)[..|a + b| - 1] == a + b[..|b| - 1];
      FreeByConcat(a, b[..|b| - 1], t);
    }
  }

  lemma FreeByUpdate(locked: seq<Lock>, at: nat, new_: Lock, t: nat)
    requires at < |locked|
    ensures var old_ := locked[at]; var after := locked[at := new_];
            && LockedSum(after) == LockedSum(locked) - old_.amount + new_.amount
            && FreeBy(after, t) == FreeBy(locked, t) - FreeBy([old_], t) + FreeBy([new_], t)
  {
    var old_ := locked[at];
    assert locked == locked[..at] + ([old_] + locked[at + 1..]);
    assert locked[at := new_] == locked[..at] + ([new_] + locked[at + 1..]);
    FreeByConcat(locked[..at], [old_] + locked[at + 1..], t);
    FreeByConcat(locked[..at], [new_] + locked[at + 1..], t);
    FreeByConcat([old_], locked[at + 1..], t);
    FreeByConcat([new_], locked[at + 1..], t);
    assert LockedSum([old_]) == old_.amount && LockedSum([new_]) == new_.amount;
  }

  /** A locked deposit adds exactly its amount, and it is free by exactly the deadlines at or
      after its expiry, whichever way the binary search ended. */
  lemma InsertCounts(locked: seq<Lock>, key: Lock, t: nat)
    ensures LockedSum(Insert(locked, key)) == LockedSum(locked) + key.amount
    ensures FreeBy(Insert(locked, key), t) == FreeBy(locked, t) + if key.expires <= t then key.amount else 0
  {
    match Search(locked, key, 0, |locked|)
    case Found(at) =>
      var merged := Lock(key.expires, locked[at].amount + key.amount);
      FreeByUpdate(locked, at, merged, t);
      assert FreeBy([merged], t) == if key.expires <= t then merged.amount else 0;
      assert FreeBy([locked[at]], t) == if key.expires <= t then locked[at].amount else 0;
    case Missing(at) =>
      assert locked == locked[..at] + locked[at..];
      FreeByConcat(locked[..at], locked[at..], t);
      FreeByConcat(locked[..at] + [key], locked[at..], t);
      FreeByConcat(locked[..at], [key], t);
      assert LockedSum([key]) == key.amount;
      assert FreeBy([key], t) == if key.expires <= t then key.amount else 0;
  }

  /** The bisection separates earlier expiries from later ones even where merging equal entries
      has broken the order of amounts. */
  lemma {:induction false} SearchSeparates(locked: seq<Lock>, key: Lock, left: nat, right: nat)
    requires left <= right <= |locked|
    requires SortedByExpiry(locked)
    requires forall i | 0 <= i < left :: locked[i].expires <= key.expires
    requires forall i | right <= i < |locked| :: key.expires <= locked[i].expires
    ensures var p := Search(locked, key, left, right);
            p.Missing? ==>
              && (forall i | 0 <= i < p.at :: locked[i].expires <= key.expires)
              && (forall i | p.at <= i < |locked| :: key.expires <= locked[i].expires)
    decreases right - left
  {
    if left < right {
      var mid := left + (right - left) / 2;
      if Precedes(locked[mid], key) {
        SearchSeparates(locked, key, mid + 1, right);
      } else if Precedes(key, locked[mid]) {
        SearchSeparates(locked, key, left, mid);
      }
    }
  }

  /** Inserting keeps the entries sorted by expiry. */
  lemma InsertKeepsSorted(locked: seq<Lock>, key: Lock)
    requires SortedByExpiry(locked)
    ensures SortedByExpiry(Insert(locked, key))
  {
    SearchSeparates(locked, key, 0, |locked|);
  }

  /** Freeing expired entries moves tokens without creating or losing any. */
  lemma {:induction false} FreeingConserves(locked: seq<Lock>, now: nat)
    ensures FreeBy(locked, now) + LockedSum(StillLocked(locked, now)) == LockedSum(locked)
  {
    if locked != [] {
      var front, last := locked[..|locked| - 1], locked[|locked| - 1];
      FreeingConserves(front, now);
      if last.expires > now {
        var rest := StillLocked(front, now);
        assert (rest + [last])[..|rest + [last]| - 1] == rest;
      }
    }
  }

  /** Freeing at `now` does not change what is free by a later deadline. */
  lemma {:induction false} FreeingKeepsDeadlines(locked: seq<Lock>, now: nat, t: nat)
    requires now <= t
    ensures FreeBy(locked, now) + FreeBy(StillLocked(locked, now), t) == FreeBy(locked, t)
  {
    if locked != [] {
      var front, last := locked[..|locked| - 1], locked[|locked| - 1];
      FreeingKeepsDeadlines(front, now, t);
      if last.expires > now {
        var rest := StillLocked(front, now);
        assert (rest + [last])[..|rest + [last]| - 1] == rest;
      }
    }
  }

  lemma {:induction false} FreeByWithin(locked: seq<Lock>, s: nat, t: nat)
    requires s <= t
    ensures FreeBy(locked, s) <= FreeBy(locked, t) <= LockedSum(locked)
  {
    if locked != [] {
      FreeByWithin(locked[..|locked| - 1], s, t);
    }
  }

  /** Exactly what a release does: it succeeds if and only if the amount is unlocked by now, takes
      that amount from the total, and unlocks nothing early. */
  lemma ReleaseMeaning(b: Bond, now: nat, amount: nat)
    ensures var r := Release(b, now, amount);
            && (r.Ok? <==> amount <= b.stake + FreeBy(b.locked, now))
            && (r.Ok? ==> Total(r.value) == Total(b) - amount)
            && (r.Ok? ==> forall t | now <= t ::
                  r.value.stake + FreeBy(r.value.locked, t) == b.stake + FreeBy(b.locked, t) - amount)
  {
    FreeingConserves(b.locked, now);
    forall t | now <= t
      ensures FreeBy(b.locked, now) + FreeBy(StillLocked(b.locked, now), t) == FreeBy(b.locked, t)
    {
      FreeingKeepsDeadlines(b.locked, now, t);
    }
  }

  // ---- the in-memory record the contract loads, changes and saves ----

  class BondingInfo {
    var stake: nat
    var locked: seq<Lock>

    ghost function View(): Bond
      reads this
    {
      Bond(stake, locked)
    }

    constructor (b: Bond)
      ensures View() == b
    {
      stake, locked := b.stake, b.locked;
    }

    method AddUnlockedTokens(amount: nat) returns (tokens: nat)
      modifies this
      ensures View() == AddUnlocked(old(View()), amount)
      ensures tokens == stake
    {
      tokens := stake + amount;
      stake := tokens;
    }

    method BinarySearch(key: Lock) returns (p: Position)
      ensures p == Search(locked, key, 0, |locked|)
    {
      var left, right := 0, |locked|;
      while left < right
        invariant left <= right <= |locked|
        invariant Search(locked, key, left, right) == Search(locked, key, 0, |locked|)
      {
        var mid := left + (right - left) / 2;
        if Precedes(locked[mid], key) {
          left := mid + 1;
        } else if Precedes(key, locked[mid]) {
          right := mid;
        } else {
          return Found(mid);
        }
      }
      p := Missing(left);
    }

    method AddLockedTokens(expires: nat, amount: nat)
      modifies this
      ensures View() == AddLocked(old(View()), expires, amount)
      ensures old(SortedByExpiry(locked)) ==> SortedByExpiry(locked)
    {
      ghost var before := locked;
      var p := BinarySearch(Lock(expires, amount));
      match p {
        case Found(at) => locked := locked[at := Lock(locked[at].expires, locked[at].amount + amount)];
        case Missing(at) => locked := locked[..at] + [Lock(expires, amount)] + locked[at..];
      }
      if SortedByExpiry(before) {
        InsertKeepsSorted(before, Lock(expires, amount));
      }
    }

    /** The entries expired by `now`, summed, and the others in their order. */
    static method Partition(entries: seq<Lock>, now: nat) returns (unlocked: nat, remaining: seq<Lock>)
      ensures unlocked == FreeBy(entries, now) && remaining == StillLocked(entries, now)
      ensures unlocked + LockedSum(remaining) == LockedSum(entries)
    {
      unlocked, remaining := 0, [];
      for i := 0 to |entries|
        invariant unlocked == FreeBy(entries[..i], now)
        invariant remaining == StillLocked(entries[..i], now)
      {
        assert entries[..i + 1][..i] == entries[..i];
        if entries[i].expires <= now {
          unlocked := unlocked + entries[i].amount;
        } else {
          remaining := remaining + [entries[i]];
        }
      }
      assert entries[..|entries|] == entries;
      FreeingConserves(entries, now);
    }

    method FreeUnlockedTokens(now: nat)
      modifies this
      ensures View() == FreeUnlocked(old(View()), now)
      ensures Total(View()) == old(Total(View()))
    {
      if |locked| == 0 {
        return;
      }
      var unlocked, remaining := Partition(locked, now);
      locked := remaining;
      stake := stake + unlocked;
    }

    method ReleaseStake(now: nat, amount: nat) returns (r: Result<nat>)
      modifies this
      ensures r.Ok? <==> Release(old(View()), now, amount).Ok?
      ensures r.Ok? ==> View() == Release(old(View()), now, amount).value && r.value == stake
      ensures r.Err? ==> r.error == Overflow && View() == FreeUnlocked(old(View()), now)
    {
      FreeUnlockedTokens(now);
      if stake < amount {
        return Err(Overflow);
      }
      stake := stake - amount;
      r := Ok(stake);
    }

    method ForceUnlockAll()
      modifies this
      ensures View() == Bond(old(Total(View())), [])
    {
      var sum := LockedTotal();
      stake := stake + sum;
      locked := [];
    }

    method LockedTotal() returns (sum: nat)
      ensures sum == LockedSum(locked)
    {
      sum := 0;
      for i := 0 to |locked|
        invariant sum == LockedSum(locked[..i])
      {
        assert locked[..i + 1][..i] == locked[..i];
        sum := sum + locked[i].amount;
      }
      assert locked[..|locked|] == locked;
    }

    method TotalStake() returns (total: nat)
      ensures total == Total(View())
    {
      var sum := LockedTotal();
      total := stake + sum;
    }
  }
}
