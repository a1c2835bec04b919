/** Login nonces kept in memory (`MemoryNonceStore` in src/auth.ts). Clock readings and random nonces are inputs. */
module Nonces {

  type Nonce = string
  type Address = string

  type Positive = n: int | n > 0 witness 1

  const MAX_PER_ADDRESS: nat := 100

  datatype Entry = Entry(address: Address, expiresAt: int)

  datatype Limits = Limits(ttlMs: nat, maxEntries: nat)

  /** Outstanding nonces, and how many each address is counted to have. */
  datatype Vault = Vault(store: map<Nonce, Entry>, counts: map<Address, Positive>)

  const EMPTY_VAULT := Vault(map[], map[])

  function CountOf(counts: map<Address, Positive>, a: Address): nat {
    if a in counts then counts[a] else 0
  }

  /** One less, dropping the address when none is left. */
  function Decrement(counts: map<Address, Positive>, a: Address): map<Address, Positive> {
    if CountOf(counts, a) > 1 then counts[a := counts[a] - 1] else counts - {a}
  }

  predicate Expired(v: Vault, nonce: Nonce, now: int) {
    nonce in v.store && v.store[nonce].expiresAt < now
  }

  predicate HasRoom(lim: Limits, v: Vault, a: Address) {
    |v.store| < lim.maxEntries && CountOf(v.counts, a) < MAX_PER_ADDRESS
  }

  /** `issue`; a NonceStoreCapacityError is no nonce. */
  function Issue(lim: Limits, v: Vault, a: Address, nonce: Nonce, now: int): (Vault, bool) {
    if !HasRoom(lim, v, a) then (v, false)
    else (Vault(v.store[nonce := Entry(a, now + lim.ttlMs)], v.counts[a := CountOf(v.counts, a) + 1]), true)
  }

  /** `consume`. An expired nonce is dropped whoever presents it, and the presenter's count goes down. */
  function Consume(v: Vault, a: Address, nonce: Nonce, now: int): (Vault, bool) {
    if nonce !in v.store then (v, false)
    else if Expired(v, nonce, now) then (Vault(v.store - {nonce}, Decrement(v.counts, a)), false)
    else if v.store[nonce].address != a then (v, false)
    else (Vault(v.store - {nonce}, Decrement(v.counts, a)), true)
  }

  /** The nonces of an address among some of those stored. */
  function Owned(store: map<Nonce, Entry>, ns: set<Nonce>, a: Address): set<Nonce> {
    set n | n in ns && n in store && store[n].address == a
  }

  /** The counts after the nonces `ns` were dropped one by one. */
  function Reduced(counts: map<Address, Positive>, store: map<Nonce, Entry>, ns: set<Nonce>): map<Address, Positive> {
    map a | a in counts && counts[a] > |Owned(store, ns, a)| :: counts[a] - |Owned(store, ns, a)|
  }

  function ExpiredOf(v: Vault, now: int): set<Nonce> {
    set n | n in v.store && v.store[n].expiresAt < now
  }

  /** The periodic sweep. */
  function Sweep(v: Vault, now: int): Vault {
    var gone := ExpiredOf(v, now);
    Vault(v.store - gone, Reduced(v.counts, v.store, gone))
  }

  lemma OwnedGrows(store: map<Nonce, Entry>, ns: set<Nonce>, n: Nonce, a: Address)
    requires n in store && n !in ns
    ensures |Owned(store, ns + {n}, a)| == |Owned(store, ns, a)| + (if store[n].address == a then 1 else 0)
  {
    if store[n].address == a {
      assert Owned(store, ns + {n}, a) == Owned(store, ns, a) + {n};
    } else {
      assert Owned(store, ns + {n}, a) == Owned(store, ns, a);
    }
  }

  /** Dropping one more nonce is one decrement of its owner. */
  lemma ReducedGrows(counts: map<Address, Positive>, store: map<Nonce, Entry>, ns: set<Nonce>, n: Nonce)
    requires n in store && n !in ns
    ensures Reduced(counts, store, ns + {n}) == Decrement(Reduced(counts, store, ns), store[n].address)
  {
    hide Owned;
    var l, r := Reduced(counts, store, ns + {n}), Decrement(Reduced(counts, store, ns), store[n].address);
    forall a
      ensures (a in l <==> a in r) && (a in l ==> l[a] == r[a])
    {
      OwnedGrows(store, ns, n, a);
    }
  }

  class MemoryNonceStore {
    const lim: Limits
    var store: map<Nonce, Entry>
    var counts: map<Address, Positive>

    function View(): Vault
      reads this
    {
      Vault(store, counts)
    }

    constructor (lim: Limits)
      ensures View() == EMPTY_VAULT && this.lim == lim
    {
      this.lim := lim;
      store, counts := map[], map[];
    }

    method IssueNonce(a: Address, nonce: Nonce, now: int) returns (issued: bool)
      modifies this
      ensures (View(), issued) == Issue(lim, old(View()), a, nonce, now)
    {
      if |store| >= lim.maxEntries {
        return false;
      }
      var count := if a in counts then counts[a] else 0;
      if count >= MAX_PER_ADDRESS {
        return false;
      }
      store := store[nonce := Entry(a, now + lim.ttlMs)];
      counts := counts[a := count + 1];
      issued := true;
    }

    method ReleaseCount(a: Address)
      modifies this`counts
      ensures counts == Decrement(old(counts), a)
    {
      var count := if a in counts then counts[a] else 0;
      if count > 1 {
        counts := counts[a := count - 1];
      } else {
        counts := counts - {a};
      }
    }

    method ConsumeNonce(a: Address, nonce: Nonce, now: int) returns (ok: bool)
      modifies this
      ensures (View(), ok) == Consume(old(View()), a, nonce, now)
    {
      if nonce !in store {
        return false;
      }
      var entry := store[nonce];
      if entry.expiresAt < now {
        store := store - {nonce};
        ReleaseCount(a);
        return false;
      }
      if entry.address != a {
        return false;
      }
      store := store - {nonce};
      ReleaseCount(a);
      ok := true;
    }

    /** The sweep visits every entry once, in any order. */
    method SweepExpired(now: int)
      modifies this
      ensures View() == Sweep(old(View()), now)
    {
      hide Reduced, Decrement;
      ghost var begin := View();
      NothingReduced(counts, store);
      var left := store.Keys;
      ghost var gone: set<Nonce> := {};
      while left != {}
        invariant left <= store.Keys
        invariant gone == ExpiredOf(begin, now) - left
        invariant store == begin.store - gone
        invariant counts == Reduced(begin.counts, begin.store, gone)
        decreases |left|
      {
        var nonce :| nonce in left;
        left := left - {nonce};
        var entry := store[nonce];
        if entry.expiresAt < now {
          ReducedGrows(begin.counts, begin.store, gone, nonce);
          store := store - {nonce};
          ReleaseCount(entry.address);
          gone := gone + {nonce};
        }
      }
      assert gone == ExpiredOf(begin, now);
    }
  }

  lemma NothingReduced(counts: map<Address, Positive>, store: map<Nonce, Entry>)
    ensures Reduced(counts, store, {}) == counts
  {
    assert forall a :: Owned(store, {}, a) == {};
  }

  // Runs

  datatype Op =
    | Issuing(address: Address, nonce: Nonce, now: int)
    | Presenting(address: Address, nonce: Nonce, now: int)
    | Sweeping(now: int)

  /** A successful login: who presented which nonce, and when. */
  datatype Login = Login(nonce: Nonce, address: Address, at: int)

  /** The vault with its history: every nonce ever issued, and every successful consumption. */
  datatype World = World(v: Vault, issued: map<Nonce, Entry>, logins: seq<Login>)

  function Step(lim: Limits, w: World, op: Op): World {
    match op
    case Issuing(a, nonce, now) =>
      var (v, ok) := Issue(lim, w.v, a, nonce, now);
      if ok then World(v, w.issued[nonce := Entry(a, now + lim.ttlMs)], w.logins) else w
    case Presenting(a, nonce, now) =>
      var (v, ok) := Consume(w.v, a, nonce, now);
      World(v, w.issued, if ok then w.logins + [Login(nonce, a, now)] else w.logins)
    case Sweeping(now) => w.(v := Sweep(w.v, now))
  }

  function Exec(lim: Limits, ops: seq<Op>): World {
    if ops == [] then World(EMPTY_VAULT, map[], [])
    else Step(lim, Exec(lim, ops[..|ops| - 1]), ops[|ops| - 1])
  }

  /** Random nonces do not repeat. */
  predicate FreshRun(lim: Limits, ops: seq<Op>) {
    forall i :: 0 <= i < |ops| && ops[i].Issuing? ==> ops[i].nonce !in Exec(lim, ops[..i]).issued
  }

  /** The login used up a nonce of its own address in time. */
  predicate Rightful(issued: map<Nonce, Entry>, l: Login) {
    l.nonce in issued && issued[l.nonce].address == l.address && l.at <= issued[l.nonce].expiresAt
  }

  ghost predicate Inv(lim: Limits, w: World) {
    && |w.v.store| <= lim.maxEntries
    && (forall n :: n in w.v.store ==> n in w.issued && w.issued[n] == w.v.store[n])
    && (forall l :: l in w.logins ==> Rightful(w.issued, l) && l.nonce !in w.v.store)
    && (forall i, j :: 0 <= i < j < |w.logins| ==> w.logins[i].nonce != w.logins[j].nonce)
  }

  lemma FewerEntries(store: map<Nonce, Entry>, gone: set<Nonce>)
    ensures |store - gone| <= |store|
  {
    assert (store - gone).Keys == store.Keys - gone;
    assert |store - gone| == |(store - gone).Keys| && |store| == |store.Keys|;
    var rest := store.Keys - gone;
    assert store.Keys == rest + (store.Keys * gone);
  }

  lemma OneMoreEntry(store: map<Nonce, Entry>, n: Nonce, e: Entry)
    ensures |store[n := e]| <= |store| + 1
  {
    assert store[n := e].Keys == store.Keys + {n};
    assert |store[n := e]| == |store[n := e].Keys| && |store| == |store.Keys|;
  }

  lemma IssueKeepsInv(lim: Limits, w: World, a: Address, nonce: Nonce, now: int)
    requires Inv(lim, w) && nonce !in w.issued
    ensures Inv(lim, Step(lim, w, Issuing(a, nonce, now)))
  {
    OneMoreEntry(w.v.store, nonce, Entry(a, now + lim.ttlMs));
  }

  lemma PresentKeepsInv(lim: Limits, w: World, a: Address, nonce: Nonce, now: int)
    requires Inv(lim, w)
    ensures Inv(lim, Step(lim, w, Presenting(a, nonce, now)))
  {
    hide Decrement;
    FewerEntries(w.v.store, {nonce});
  }

  lemma SweepKeepsInv(lim: Limits, w: World, now: int)
    requires Inv(lim, w)
    ensures Inv(lim, Step(lim, w, Sweeping(now)))
  {
    hide Reduced, ExpiredOf;
    FewerEntries(w.v.store, ExpiredOf(w.v, now));
  }

  lemma StepKeepsInv(lim: Limits, w: World, op: Op)
    requires Inv(lim, w) && (op.Issuing? ==> op.nonce !in w.issued)
    ensures Inv(lim, Step(lim, w, op))
  {
    hide *;
    match op {
      case Issuing(a, nonce, now) => IssueKeepsInv(lim, w, a, nonce, now);
      case Presenting(a, nonce, now) => PresentKeepsInv(lim, w, a, nonce, now);
      case Sweeping(now) => SweepKeepsInv(lim, w, now);
    }
  }

  lemma FreshPrefix(lim: Limits, ops: seq<Op>)
    requires FreshRun(lim, ops) && ops != []
    ensures var n := |ops| - 1;
            FreshRun(lim, ops[..n]) && (ops[n].Issuing? ==> ops[n].nonce !in Exec(lim, ops[..n]).issued)
  {
    hide Exec;
    var n := |ops| - 1;
    assert forall i :: 0 <= i < n ==> ops[..n][..i] == ops[..i];
  }

  lemma {:induction false} InvHolds(lim: Limits, ops: seq<Op>)
    requires FreshRun(lim, ops)
    ensures Inv(lim, Exec(lim, ops))
  {
    if ops != [] {
      hide Step, Inv, FreshRun;
      var n := |ops| - 1;
      FreshPrefix(lim, ops);
      InvHolds(lim, ops[..n]);
      StepKeepsInv(lim, Exec(lim, ops[..n]), ops[n]);
    } else {
      assert |EMPTY_VAULT.store| == 0;
    }
  }

  /** In every run each nonce is consumed at most once, only by the address it was issued to and no later
      than its expiry, and the store never outgrows its cap. */
  lemma NonceIsGoodForOneLogin(lim: Limits, ops: seq<Op>)
    requires FreshRun(lim, ops)
    ensures var w := Exec(lim, ops);
            && (forall i, j :: 0 <= i < j < |w.logins| ==> w.logins[i].nonce != w.logins[j].nonce)
            && (forall l :: l in w.logins ==> Rightful(w.issued, l))
            && |w.v.store| <= lim.maxEntries
  {
    InvHolds(lim, ops);
  }

  // When a login succeeds

  /** A sweep, or a presentation by anybody, that comes after the nonce has expired. */
  predicate Drops(w: World, op: Op, n: Nonce) {
    && n in w.issued && !op.Issuing? && w.issued[n].expiresAt < op.now
    && (op.Presenting? ==> op.nonce == n)
  }

  predicate Dropped(lim: Limits, ops: seq<Op>, n: Nonce) {
    ops != [] &&
    (Dropped(lim, ops[..|ops| - 1], n) || Drops(Exec(lim, ops[..|ops| - 1]), ops[|ops| - 1], n))
  }

  predicate Consumed(w: World, n: Nonce) {
    exists l :: l in w.logins && l.nonce == n
  }

  /** Issued, never yet consumed, and dropped by no sweep or presentation after its expiry. */
  predicate Live(lim: Limits, ops: seq<Op>, n: Nonce) {
    n in Exec(lim, ops).issued && !Consumed(Exec(lim, ops), n) && !Dropped(lim, ops, n)
  }

  lemma DroppedSnoc(lim: Limits, ops: seq<Op>, op: Op, n: Nonce)
    ensures Dropped(lim, ops + [op], n) <==> Dropped(lim, ops, n) || Drops(Exec(lim, ops), op, n)
  {
    hide Exec, Drops;
    assert (ops + [op])[..|ops|] == ops;
  }

  lemma IssuedStays(lim: Limits, w: World, op: Op, n: Nonce)
    requires op.Issuing? ==> op.nonce !in w.issued
    ensures n in w.issued ==> n in Step(lim, w, op).issued && Step(lim, w, op).issued[n] == w.issued[n]
  {
    hide Consume, Sweep;
  }

  lemma {:induction false} DroppedWasIssued(lim: Limits, ops: seq<Op>, n: Nonce)
    requires FreshRun(lim, ops) && Dropped(lim, ops, n)
    ensures n in Exec(lim, ops).issued
  {
    hide FreshRun, Step;
    var k := |ops| - 1;
    FreshPrefix(lim, ops);
    if Dropped(lim, ops[..k], n) {
      DroppedWasIssued(lim, ops[..k], n);
    }
    IssuedStays(lim, Exec(lim, ops[..k]), ops[k], n);
  }

  lemma ConsumedStep(lim: Limits, w: World, op: Op, n: Nonce)
    ensures Consumed(Step(lim, w, op), n) <==>
            Consumed(w, n) || (op.Presenting? && op.nonce == n && Consume(w.v, op.address, n, op.now).1)
  {
    hide Issue, Consume, Sweep;
    match op {
      case Presenting(a, nonce, now) =>
        if Consume(w.v, a, nonce, now).1 {
          assert Step(lim, w, op).logins == w.logins + [Login(nonce, a, now)];
          assert Login(nonce, a, now) in Step(lim, w, op).logins;
        }
      case _ =>
    }
  }

  /** One step: a nonce is in the store exactly as long as it is live. */
  lemma StoreStep(lim: Limits, w: World, op: Op, n: Nonce)
    requires Inv(lim, w) && (op.Issuing? ==> op.nonce !in w.issued)
    ensures n in Step(lim, w, op).v.store <==>
            || (n in w.v.store && !Drops(w, op, n)
                && !(op.Presenting? && op.nonce == n && Consume(w.v, op.address, n, op.now).1))
            || (op.Issuing? && op.nonce == n && Issue(lim, w.v, op.address, n, op.now).1)
    ensures n !in w.issued ==>
              (n in Step(lim, w, op).issued <==>
                 op.Issuing? && op.nonce == n && Issue(lim, w.v, op.address, n, op.now).1)
  {
    hide Reduced, Decrement;
  }

  /** In every fresh run the store holds exactly the live nonces. */
  lemma {:induction false} StoreIsLive(lim: Limits, ops: seq<Op>, n: Nonce)
    requires FreshRun(lim, ops)
    ensures n in Exec(lim, ops).v.store <==> Live(lim, ops, n)
  {
    if ops != [] {
      var k := |ops| - 1;
      var before, w, op := ops[..k], Exec(lim, ops[..k]), ops[k];
      assert Exec(lim, ops) == Step(lim, w, op);
      assert ops == before + [op];
      FreshPrefix(lim, ops);
      hide FreshRun;
      StoreIsLive(lim, before, n);
      InvHolds(lim, before);
      DroppedSnoc(lim, before, op, n);
      hide Exec, Step, Dropped;
      StoreStep(lim, w, op, n);
      ConsumedStep(lim, w, op, n);
      IssuedStays(lim, w, op, n);
      StillLive(lim, before, op, n);
    }
  }

  /** A nonce that was never issued is neither consumed nor dropped. */
  lemma StillLive(lim: Limits, ops: seq<Op>, op: Op, n: Nonce)
    requires FreshRun(lim, ops)
    ensures var w := Exec(lim, ops); n !in w.issued ==> !Consumed(w, n) && !Dropped(lim, ops, n) && !Drops(w, op, n)
  {
    InvHolds(lim, ops);
    if Dropped(lim, ops, n) {
      DroppedWasIssued(lim, ops, n);
    }
    hide Exec, Dropped, FreshRun;
  }

  /** In every fresh run, presenting a nonce succeeds if and only if it was issued to that address, the time is no
      later than its expiry, it has not been consumed before, and no earlier sweep or presentation dropped it as
      expired. */
  lemma LoginSucceedsIff(lim: Limits, ops: seq<Op>, a: Address, n: Nonce, now: int)
    requires FreshRun(lim, ops)
    ensures Consume(Exec(lim, ops).v, a, n, now).1 <==>
            && Live(lim, ops, n)
            && Exec(lim, ops).issued[n].address == a && now <= Exec(lim, ops).issued[n].expiresAt
  {
    StoreIsLive(lim, ops, n);
    InvHolds(lim, ops);
    hide Exec, Dropped, FreshRun, Consumed;
  }

  /** A sweep drops exactly the expired nonces. */
  lemma SweepDropsTheExpired(v: Vault, now: int, n: Nonce)
    ensures n in Sweep(v, now).store <==> n in v.store && v.store[n].expiresAt >= now
    ensures n in Sweep(v, now).store ==> Sweep(v, now).store[n] == v.store[n]
  {
    hide Reduced;
  }

  // The per-address counts

  /** Each address is counted to have exactly its outstanding nonces, and never more than the limit. */
  ghost predicate CountsAgree(v: Vault) {
    forall a :: CountOf(v.counts, a) == |Owned(v.store, v.store.Keys, a)|
  }

  ghost predicate WithinLimit(v: Vault) {
    forall a :: CountOf(v.counts, a) <= MAX_PER_ADDRESS
  }

  lemma OwnedWithout(store: map<Nonce, Entry>, n: Nonce, a: Address)
    requires n in store
    ensures |Owned(store, store.Keys, a)|
            == |Owned(store - {n}, (store - {n}).Keys, a)| + (if store[n].address == a then 1 else 0)
  {
    var rest := store - {n};
    OwnedGrows(store, store.Keys - {n}, n, a);
    assert store.Keys - {n} + {n} == store.Keys;
    assert Owned(store, store.Keys - {n}, a) == Owned(rest, rest.Keys, a);
  }

  lemma OwnedWith(store: map<Nonce, Entry>, n: Nonce, e: Entry, a: Address)
    requires n !in store
    ensures |Owned(store[n := e], store[n := e].Keys, a)|
            == |Owned(store, store.Keys, a)| + (if e.address == a then 1 else 0)
  {
    OwnedWithout(store[n := e], n, a);
    assert store[n := e] - {n} == store;
  }

  /** An expired nonce presented by someone else. */
  predicate ForeignExpired(v: Vault, a: Address, nonce: Nonce, now: int) {
    Expired(v, nonce, now) && v.store[nonce].address != a
  }

  /** Presenting a nonce keeps the counts right if and only if it is not an expired nonce of another address:
      then the presenter's count goes down while the owner's nonce goes. */
  lemma ConsumeKeepsCountsExactly(v: Vault, a: Address, nonce: Nonce, now: int)
    requires CountsAgree(v)
    ensures CountsAgree(Consume(v, a, nonce, now).0) <==> !ForeignExpired(v, a, nonce, now)
  {
    hide Owned;
    var v' := Consume(v, a, nonce, now).0;
    if v' != v {
      var owner := v.store[nonce].address;
      if owner != a {
        OwnedWithout(v.store, nonce, owner);
        assert CountOf(v'.counts, owner) == CountOf(v.counts, owner);
        assert CountOf(v'.counts, owner) != |Owned(v'.store, v'.store.Keys, owner)|;
      } else {
        forall x
          ensures CountOf(v'.counts, x) == |Owned(v'.store, v'.store.Keys, x)|
        {
          OwnedWithout(v.store, nonce, x);
        }
      }
    }
  }

  lemma IssueKeepsCounts(lim: Limits, v: Vault, a: Address, nonce: Nonce, now: int)
    requires CountsAgree(v) && nonce !in v.store
    ensures CountsAgree(Issue(lim, v, a, nonce, now).0)
  {
    hide Owned;
    var v' := Issue(lim, v, a, nonce, now).0;
    if HasRoom(lim, v, a) {
      forall x
        ensures CountOf(v'.counts, x) == |Owned(v'.store, v'.store.Keys, x)|
      {
        OwnedWith(v.store, nonce, Entry(a, now + lim.ttlMs), x);
      }
    }
  }

  lemma OwnedSplits(store: map<Nonce, Entry>, gone: set<Nonce>, a: Address)
    requires gone <= store.Keys
    ensures |Owned(store, store.Keys, a)| == |Owned(store, gone, a)| + |Owned(store - gone, (store - gone).Keys, a)|
  {
    assert (store - gone).Keys == store.Keys - gone;
    assert Owned(store, store.Keys, a) == Owned(store, gone, a) + Owned(store - gone, (store - gone).Keys, a);
  }

  lemma SweepKeepsCounts(v: Vault, now: int)
    requires CountsAgree(v)
    ensures CountsAgree(Sweep(v, now))
  {
    hide Owned;
    var gone := ExpiredOf(v, now);
    var v' := Sweep(v, now);
    forall x
      ensures CountOf(v'.counts, x) == |Owned(v'.store, v'.store.Keys, x)|
    {
      OwnedSplits(v.store, gone, x);
    }
  }

  /** No expired nonce is presented by anyone but its owner. */
  ghost predicate OwnersOnly(lim: Limits, ops: seq<Op>) {
    forall i :: 0 <= i < |ops| && ops[i].Presenting? ==>
      !ForeignExpired(Exec(lim, ops[..i]).v, ops[i].address, ops[i].nonce, ops[i].now)
  }

  lemma LimitStays(lim: Limits, w: World, op: Op)
    requires WithinLimit(w.v)
    ensures WithinLimit(Step(lim, w, op).v)
  {
    hide Owned;
    forall a
      ensures CountOf(Step(lim, w, op).v.counts, a) <= MAX_PER_ADDRESS
    {
      assert CountOf(w.v.counts, a) <= MAX_PER_ADDRESS;
    }
  }

  /** In such runs every address's count is the number of its outstanding nonces, and both stay within 100. */
  lemma {:induction false} CountsAreExact(lim: Limits, ops: seq<Op>)
    requires FreshRun(lim, ops) && OwnersOnly(lim, ops)
    ensures CountsAgree(Exec(lim, ops).v) && WithinLimit(Exec(lim, ops).v)
  {
    if ops != [] {
      hide CountsAgree, WithinLimit, ForeignExpired, Issue, Consume, Sweep;
      var n := |ops| - 1;
      assert forall i :: 0 <= i < n ==> ops[..n][..i] == ops[..i];
      CountsAreExact(lim, ops[..n]);
      InvHolds(lim, ops[..n]);
      var w := Exec(lim, ops[..n]);
      LimitStays(lim, w, ops[n]);
      match ops[n] {
        case Issuing(a, nonce, now) =>
          assert nonce !in w.v.store;
          IssueKeepsCounts(lim, w.v, a, nonce, now);
        case Presenting(a, nonce, now) => ConsumeKeepsCountsExactly(w.v, a, nonce, now);
        case Sweeping(now) => SweepKeepsCounts(w.v, now);
      }
    } else {
      assert forall a :: Owned(map[], {}, a) == {};
    }
  }

  /** In such runs a nonce is issued if and only if the store is not full and its address has fewer than a hundred
      outstanding; it expires one lifetime later. */
  lemma IssuedIffRoom(lim: Limits, ops: seq<Op>, a: Address, nonce: Nonce, now: int)
    requires FreshRun(lim, ops) && OwnersOnly(lim, ops)
    ensures var v := Exec(lim, ops).v;
            && (Issue(lim, v, a, nonce, now).1 <==>
                  |v.store| < lim.maxEntries && |Owned(v.store, v.store.Keys, a)| < 100)
            && (Issue(lim, v, a, nonce, now).1 ==>
                  Issue(lim, v, a, nonce, now).0.store == v.store[nonce := Entry(a, now + lim.ttlMs)])
  {
    CountsAreExact(lim, ops);
    hide Exec, FreshRun, OwnersOnly, Owned;
  }

  // Expired nonces in other hands

  lemma ExecSnoc(lim: Limits, ops: seq<Op>, op: Op)
    ensures Exec(lim, ops + [op]) == Step(lim, Exec(lim, ops), op)
    ensures FreshRun(lim, ops + [op]) <==> FreshRun(lim, ops) && (op.Issuing? ==> op.nonce !in Exec(lim, ops).issued)
  {
    hide Step;
    var all := ops + [op];
    assert all[..|ops|] == ops;
    assert forall i :: 0 <= i < |ops| ==> all[..i] == ops[..i] && all[i] == ops[i];
    if FreshRun(lim, all) {
      assert all[|ops|] == op;
    }
  }

  /** Each nonce is issued to `a` and presented by `b` as soon as it has expired; the clock goes on. */
  function Rounds(lim: Limits, a: Address, b: Address, nonces: seq<Nonce>): seq<Op> {
    if nonces == [] then []
    else
      var n := |nonces| - 1;
      Rounds(lim, a, b, nonces[..n])
      + [Issuing(a, nonces[n], Clock(lim, n))] + [Presenting(b, nonces[n], Clock(lim, n + 1))]
  }

  function Clock(lim: Limits, n: nat): nat {
    if n == 0 then 0 else Clock(lim, n - 1) + lim.ttlMs + 1
  }

  function CountOnly(a: Address, n: nat): map<Address, Positive> {
    if n == 0 then map[] else map[a := n]
  }

  lemma RoundIssues(lim: Limits, v: Vault, a: Address, nonce: Nonce, now: int, n: nat)
    requires lim.maxEntries >= 1 && n < MAX_PER_ADDRESS && v == Vault(map[], CountOnly(a, n))
    ensures Issue(lim, v, a, nonce, now) == (Vault(map[nonce := Entry(a, now + lim.ttlMs)], CountOnly(a, n + 1)), true)
  {
    assert |v.store| == 0;
    assert v.counts[a := n + 1] == CountOnly(a, n + 1);
    assert v.store[nonce := Entry(a, now + lim.ttlMs)] == map[nonce := Entry(a, now + lim.ttlMs)];
  }

  lemma RoundLoses(v: Vault, a: Address, b: Address, nonce: Nonce, expiresAt: int, now: int, n: nat)
    requires a != b && expiresAt < now && v == Vault(map[nonce := Entry(a, expiresAt)], CountOnly(a, n))
    ensures Consume(v, b, nonce, now) == (Vault(map[], CountOnly(a, n)), false)
  {
    assert v.store - {nonce} == map[];
    assert Decrement(v.counts, b) == v.counts;
  }

  lemma RoundLeaks(lim: Limits, w: World, a: Address, b: Address, nonce: Nonce, now: int, later: int, n: nat)
    requires a != b && lim.maxEntries >= 1 && n < MAX_PER_ADDRESS && later == now + lim.ttlMs + 1
    requires w.v == Vault(map[], CountOnly(a, n))
    ensures var w' := Step(lim, Step(lim, w, Issuing(a, nonce, now)), Presenting(b, nonce, later));
            w'.v == Vault(map[], CountOnly(a, n + 1)) && w'.issued.Keys == w.issued.Keys + {nonce}
  {
    hide Issue, Consume, CountOnly;
    RoundIssues(lim, w.v, a, nonce, now, n);
    RoundLoses(Issue(lim, w.v, a, nonce, now).0, a, b, nonce, now + lim.ttlMs, later, n + 1);
  }

  predicate AllDifferent(nonces: seq<Nonce>) {
    forall i, j :: 0 <= i < j < |nonces| ==> nonces[i] != nonces[j]
  }

  lemma LastIsDifferent(nonces: seq<Nonce>)
    requires AllDifferent(nonces) && nonces != []
    ensures var n := |nonces| - 1;
            AllDifferent(nonces[..n]) && nonces[n] !in nonces[..n] && Named(nonces) == Named(nonces[..n]) + {nonces[n]}
  {
    var n := |nonces| - 1;
    assert nonces == nonces[..n] + [nonces[n]];
  }

  function Named(nonces: seq<Nonce>): set<Nonce> {
    set n | n in nonces
  }

  /** Nothing is outstanding, and every round is still counted against `a`. */
  predicate Leaked(w: World, a: Address, nonces: seq<Nonce>) {
    w.v == Vault(map[], CountOnly(a, |nonces|)) && w.issued.Keys == Named(nonces)
  }

  lemma {:induction false} RoundsLeak(lim: Limits, a: Address, b: Address, nonces: seq<Nonce>)
    requires a != b && lim.maxEntries >= 1 && |nonces| <= MAX_PER_ADDRESS && AllDifferent(nonces)
    ensures FreshRun(lim, Rounds(lim, a, b, nonces)) && Leaked(Exec(lim, Rounds(lim, a, b, nonces)), a, nonces)
  {
    if nonces != [] {
      hide Step, FreshRun, CountOnly, AllDifferent;
      var n := |nonces| - 1;
      var before, nonce := Rounds(lim, a, b, nonces[..n]), nonces[n];
      var issuing, presenting := Issuing(a, nonce, Clock(lim, n)), Presenting(b, nonce, Clock(lim, n + 1));
      assert Rounds(lim, a, b, nonces) == before + [issuing] + [presenting];
      assert Clock(lim, n + 1) == Clock(lim, n) + lim.ttlMs + 1;
      hide Rounds, Exec, Clock;
      LastIsDifferent(nonces);
      assert nonce !in Named(nonces[..n]);
      hide Named;
      RoundsLeak(lim, a, b, nonces[..n]);
      RoundLeaks(lim, Exec(lim, before), a, b, nonce, Clock(lim, n), Clock(lim, n + 1), n);
      ExecSnoc(lim, before, issuing);
      ExecSnoc(lim, before + [issuing], presenting);
    }
  }

  /** So the claim on the counts fails in one round. */
  lemma StrangerBreaksTheCounts(lim: Limits, a: Address, b: Address, nonce: Nonce)
    requires a != b && lim.maxEntries >= 1
    ensures var ops := [Issuing(a, nonce, 0), Presenting(b, nonce, lim.ttlMs + 1)];
            && FreshRun(lim, ops) && Exec(lim, ops).v.store == map[]
            && CountOf(Exec(lim, ops).v.counts, a) == 1 && !CountsAgree(Exec(lim, ops).v)
  {
    RoundsLeak(lim, a, b, [nonce]);
    assert [nonce][..0] == [] && Clock(lim, 0) == 0 && Clock(lim, 1) == lim.ttlMs + 1;
    assert Rounds(lim, a, b, [nonce]) == [] + [Issuing(a, nonce, 0)] + [Presenting(b, nonce, lim.ttlMs + 1)];
    assert [] + [Issuing(a, nonce, 0)] + [Presenting(b, nonce, lim.ttlMs + 1)]
        == [Issuing(a, nonce, 0), Presenting(b, nonce, lim.ttlMs + 1)];
    hide Exec, Rounds;
    assert Owned(map[], {}, a) == {};
  }

  /** The address has no nonce left and no room for one. */
  predicate LockedOut(v: Vault, a: Address) {
    CountOf(v.counts, a) >= MAX_PER_ADDRESS && forall n :: n in v.store ==> v.store[n].address != a
  }

  lemma LockStays(lim: Limits, w: World, op: Op, a: Address)
    requires LockedOut(w.v, a)
    requires op.Presenting? && op.address == a ==> !ForeignExpired(w.v, a, op.nonce, op.now)
    ensures LockedOut(Step(lim, w, op).v, a)
    ensures op.Issuing? && op.address == a ==> Step(lim, w, op) == w
  {
    match op {
      case Issuing(_, _, _) =>
      case Presenting(_, _, _) =>
      case Sweeping(now) => assert Owned(w.v.store, ExpiredOf(w.v, now), a) == {};
    }
  }

  /** The address presents no expired nonce of another. */
  ghost predicate Polite(lim: Limits, ops: seq<Op>, more: seq<Op>, a: Address) {
    forall i :: 0 <= i < |more| && more[i].Presenting? && more[i].address == a ==>
      !ForeignExpired(Exec(lim, ops + more[..i]).v, a, more[i].nonce, more[i].now)
  }

  lemma PolitePrefix(lim: Limits, ops: seq<Op>, more: seq<Op>, a: Address)
    requires Polite(lim, ops, more, a) && more != []
    ensures var n := |more| - 1;
            && Polite(lim, ops, more[..n], a)
            && (more[n].Presenting? && more[n].address == a ==>
                  !ForeignExpired(Exec(lim, ops + more[..n]).v, a, more[n].nonce, more[n].now))
  {
    hide Exec, ForeignExpired;
    var n := |more| - 1;
    assert forall i :: 0 <= i < n ==> more[..n][..i] == more[..i];
  }

  lemma {:induction false} LockStaysThrough(lim: Limits, ops: seq<Op>, more: seq<Op>, a: Address)
    requires LockedOut(Exec(lim, ops).v, a) && Polite(lim, ops, more, a)
    ensures LockedOut(Exec(lim, ops + more).v, a)
  {
    hide Exec, Step, ForeignExpired, LockedOut;
    if more == [] {
      assert ops + more == ops;
    } else {
      var n := |more| - 1;
      PolitePrefix(lim, ops, more, a);
      hide Polite;
      LockStaysThrough(lim, ops, more[..n], a);
      ExecSnoc(lim, ops + more[..n], more[n]);
      assert ops + more[..n] + [more[n]] == ops + more;
      LockStays(lim, Exec(lim, ops + more[..n]), more[n], a);
    }
  }

  /** And a hundred rounds lock `a` out: whatever follows, as long as `a` does not itself present an expired nonce
      of another address, it holds no nonce and is issued none. */
  lemma StrangersLockOut(lim: Limits, a: Address, b: Address, nonces: seq<Nonce>, more: seq<Op>)
    requires a != b && lim.maxEntries >= 1 && |nonces| == MAX_PER_ADDRESS && AllDifferent(nonces)
    requires Polite(lim, Rounds(lim, a, b, nonces), more, a)
    ensures FreshRun(lim, Rounds(lim, a, b, nonces))
    ensures var v := Exec(lim, Rounds(lim, a, b, nonces) + more).v;
            LockedOut(v, a) && forall nonce, now :: !Issue(lim, v, a, nonce, now).1
  {
    hide Exec, Rounds, Polite, FreshRun;
    RoundsLeak(lim, a, b, nonces);
    LockStaysThrough(lim, Rounds(lim, a, b, nonces), more, a);
  }
}
