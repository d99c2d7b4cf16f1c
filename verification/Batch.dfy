/** Registrations planned against the same snapshot do not contend: all of them commit, in every order. */
module Batch {
  import opened Bytes
  import opened Commits
  import opened Executor
  import opened Hashing
  import opened Honest
  import opened Ledger
  import opened Outcomes
  import opened Registration
  import opened Registry
  import opened Runs
  import opened Slots
  import opened Sums
  import opened Views

  type Entry = x: Intent | x.ToRegister? witness ToRegister(ZERO, 0, Plain(0))

  function RateTotal(entries: seq<Entry>): nat {
    if entries == [] then 0 else RateTotal(entries[..|entries| - 1]) + entries[|entries| - 1].rate
  }

  /** No entry twice, no commitment twice, no payer twice. */
  ghost predicate Distinct(entries: seq<Entry>) {
    && (forall x :: x in entries ==> multiset(entries)[x] == 1)
    && (forall x, y :: x in entries && y in entries && x != y ==> x.commitment != y.commitment && x.payer != y.payer)
  }

  /** One entry on its own could register in `w`. */
  ghost predicate Joinable(p: Params, w: World, t: Hash, x: Entry)
    requires ViewOf(w, t).config.Some?
  {
    && Sensible(p, x) && x.commitment !in ViewOf(w, t).members
    && PaymentAmount(x.rate, ViewOf(w, t).config.value.pricePerUnit) <= Balance(w, x.payer)
  }

  /** Together they fit under the cap and into the tree. */
  ghost predicate Fits(p: Params, w: World, t: Hash, entries: seq<Entry>) {
    var v := ViewOf(w, t);
    && v.config.Some? && v.tree.Some? && Distinct(entries)
    && (forall x :: x in entries ==> Joinable(p, w, t, x))
    && v.config.value.currentTotalRateLimit + RateTotal(entries) <= v.config.value.maxTotalRateLimit
    && |v.tree.value.leaves| + |entries| <= Pow2(p.depth)
  }

  /** The transactions, all claims read from the snapshot. */
  ghost function Submits(p: Params, snapshot: World, t: Hash, entries: seq<Entry>): seq<Action>
    requires ViewOf(snapshot, t).config.Some?
  {
    seq(|entries|, i requires 0 <= i < |entries| => Submit(TxOf(p, snapshot, t, entries[i])))
  }

  ghost function MemberFor(p: Params, snapshot: World, t: Hash, x: Entry): MembershipState
    requires ViewOf(snapshot, t).config.Some?
  {
    NewMember(ClaimsOf(p, ViewOf(snapshot, t), snapshot.clock, t, x))
  }

  ghost function MembersFor(p: Params, snapshot: World, t: Hash, entries: seq<Entry>): map<Hash, MembershipState>
    requires ViewOf(snapshot, t).config.Some?
  {
    if entries == [] then map[]
    else
      var x := entries[|entries| - 1];
      MembersFor(p, snapshot, t, entries[..|entries| - 1])[x.commitment := MemberFor(p, snapshot, t, x)]
  }

  function LeavesFor(p: Params, entries: seq<Entry>): seq<Hash> {
    if entries == [] then []
    else
      var x := entries[|entries| - 1];
      LeavesFor(p, entries[..|entries| - 1]) + [LeafOf(p, x.commitment, x.rate)]
  }

  /** The registry after the batch: entry `i` sits at index `next_index + i`. */
  ghost predicate BatchDone(p: Params, snapshot: World, w: World, after: World, t: Hash, entries: seq<Entry>)
    requires ViewOf(snapshot, t).config.Some? && ViewOf(w, t).config.Some? && ViewOf(w, t).tree.Some?
  {
    var v, v' := ViewOf(w, t), ViewOf(after, t);
    && v'.config.Some? && SameTerms(v.config.value, v'.config.value)
    && v'.config.value.totalRegistrations == v.config.value.totalRegistrations + |entries|
    && v'.config.value.currentTotalRateLimit == v.config.value.currentTotalRateLimit + RateTotal(entries)
    && v'.members == v.members + MembersFor(p, snapshot, t, entries)
    && v'.tree.Some? && v'.tree.value.leaves == v.tree.value.leaves + LeavesFor(p, entries)
    && after.clock == w.clock
  }

  // ---- one more registration ----

  /** What a later state must still offer for one entry. */
  ghost predicate Room(p: Params, snapshot: World, w: World, t: Hash, x: Entry) {
    var v0, v := ViewOf(snapshot, t), ViewOf(w, t);
    && v0.config.Some? && v.config.Some? && v.tree.Some?
    && v.config.value.treeId == t && v.config.value.merkleProgram == MerkleProgram
    && SameTerms(v0.config.value, v.config.value) && ClockAccepts(w.clock, snapshot.clock)
    && Joinable(p, w, t, x)
    && v.config.value.currentTotalRateLimit + x.rate <= v.config.value.maxTotalRateLimit
    && |v.tree.value.leaves| < Pow2(p.depth)
  }

  lemma RoomAllows(p: Params, snapshot: World, w: World, t: Hash, x: Entry)
    requires Sound(p) && Room(p, snapshot, w, t, x)
    ensures Allowed(p, snapshot, w, t, x)
    ensures Result(p, snapshot, w, t, x) == Joined(p, ViewOf(w, t), x.commitment, MemberFor(p, snapshot, t, x))
  {
    LeafIsField(p, x.commitment, x.rate);
  }

  ghost predicate NobodyElsePays(w: World, after: World, payer: AccountId) {
    forall a :: a != payer ==> Balance(after, a) >= Balance(w, a)
  }

  lemma SettledOthers(w: World, after: World, metas: seq<AccountMeta>, ix: Instruction)
    requires after.balances == Settled(w, metas, ix)
    ensures NobodyElsePays(w, after, Payer(metas))
  {
  }

  /** A snapshot's claims commit in any later state with room. */
  lemma OneMore(p: Params, snapshot: World, w: World, t: Hash, x: Entry)
    requires Sound(p) && WellTyped(w) && Room(p, snapshot, w, t, x)
    ensures var out := Execute(p, w, TxOf(p, snapshot, t, x));
            && out.Done? && out.value.clock == w.clock
            && ViewOf(out.value, t) == Joined(p, ViewOf(w, t), x.commitment, MemberFor(p, snapshot, t, x))
            && NobodyElsePays(w, out.value, x.payer)
  {
    RoomAllows(p, snapshot, w, t, x);
    HonestCommits(p, snapshot, w, t, x);
    var metas, ix := AccountsOf(ViewOf(snapshot, t), t, x), ClaimsOf(p, ViewOf(snapshot, t), snapshot.clock, t, x);
    SettledOthers(w, Execute(p, w, TxOf(p, snapshot, t, x)).value, metas, ix);
  }

  // ---- what a prefix of the batch has left ----

  lemma {:induction false} MembersForKeys(p: Params, snapshot: World, t: Hash, entries: seq<Entry>, c: Hash)
    requires ViewOf(snapshot, t).config.Some?
    ensures c in MembersFor(p, snapshot, t, entries) <==> exists x :: x in entries && x.commitment == c
  {
    if entries != [] {
      var shorter, last := entries[..|entries| - 1], entries[|entries| - 1];
      MembersForKeys(p, snapshot, t, shorter, c);
      assert forall x :: x in entries <==> x in shorter || x == last;
    }
  }

  /** Consecutive indices: entry `i` of the batch gets the `i`th free slot. */
  lemma {:induction false} LeavesForAt(p: Params, entries: seq<Entry>, i: nat)
    requires i < |entries|
    ensures |LeavesFor(p, entries)| == |entries|
    ensures LeavesFor(p, entries)[i] == LeafOf(p, entries[i].commitment, entries[i].rate)
  {
    LeavesForLength(p, entries);
    LeavesForLength(p, entries[..|entries| - 1]);
    if i < |entries| - 1 {
      LeavesForAt(p, entries[..|entries| - 1], i);
    }
  }

  lemma DistinctPrefix(entries: seq<Entry>)
    requires entries != [] && Distinct(entries)
    ensures var shorter, last := entries[..|entries| - 1], entries[|entries| - 1];
            && Distinct(shorter) && last !in shorter
            && forall y :: y in shorter ==> y.commitment != last.commitment && y.payer != last.payer
  {
    var shorter, last := entries[..|entries| - 1], entries[|entries| - 1];
    assert entries == shorter + [last];
    assert multiset(entries)[last] == 1;
    assert last !in multiset(shorter);
    forall x | x in shorter ensures multiset(shorter)[x] == 1 {
      assert x in entries && x != last;
    }
  }

  lemma FitsPrefix(p: Params, w: World, t: Hash, entries: seq<Entry>)
    requires entries != [] && Fits(p, w, t, entries)
    ensures Fits(p, w, t, entries[..|entries| - 1])
  {
    DistinctPrefix(entries);
  }

  /** Every action of the list commits when its turn comes. */
  ghost predicate AllCommit(p: Params, w: World, actions: seq<Action>) {
    forall k: nat :: k < |actions| ==> Committed(p, Run(p, w, actions[..k]), actions[k])
  }

  ghost predicate NotPoorer(w: World, after: World, entries: seq<Entry>) {
    forall a :: (forall x :: x in entries ==> x.payer != a) ==> Balance(after, a) >= Balance(w, a)
  }

  lemma RoomAfterPrefix(p: Params, snapshot: World, w: World, mid: World, t: Hash, entries: seq<Entry>)
    requires entries != [] && ViewOf(snapshot, t).config.Some? && Fits(p, w, t, entries)
    requires ViewOf(w, t).config.value.treeId == t && ViewOf(w, t).config.value.merkleProgram == MerkleProgram
    requires SameTerms(ViewOf(snapshot, t).config.value, ViewOf(w, t).config.value)
    requires ClockAccepts(w.clock, snapshot.clock)
    requires BatchDone(p, snapshot, w, mid, t, entries[..|entries| - 1])
    requires NotPoorer(w, mid, entries[..|entries| - 1])
    ensures Room(p, snapshot, mid, t, entries[|entries| - 1])
  {
    var shorter, x := entries[..|entries| - 1], entries[|entries| - 1];
    DistinctPrefix(entries);
    MembersForKeys(p, snapshot, t, shorter, x.commitment);
    LeavesForLength(p, shorter);
    assert Joinable(p, w, t, x);
    assert Balance(mid, x.payer) >= Balance(w, x.payer);
  }

  lemma {:induction false} LeavesForLength(p: Params, entries: seq<Entry>)
    ensures |LeavesFor(p, entries)| == |entries|
  {
    if entries != [] {
      LeavesForLength(p, entries[..|entries| - 1]);
    }
  }

  lemma AddedLast<K, V>(m: map<K, V>, more: map<K, V>, k: K, v: V)
    ensures m + more[k := v] == (m + more)[k := v]
  {
  }

  lemma BatchGrows(p: Params, snapshot: World, w: World, mid: World, after: World, t: Hash, entries: seq<Entry>)
    requires entries != []
    requires ViewOf(snapshot, t).config.Some? && ViewOf(w, t).config.Some? && ViewOf(w, t).tree.Some?
    requires BatchDone(p, snapshot, w, mid, t, entries[..|entries| - 1])
    requires var x, config := entries[|entries| - 1], ViewOf(mid, t).config.value;
             && ViewOf(after, t) == Joined(p, ViewOf(mid, t), x.commitment, MemberFor(p, snapshot, t, x))
             && config.totalRegistrations + 1 <= U64_MAX && config.currentTotalRateLimit + x.rate <= U64_MAX
    requires after.clock == w.clock
    ensures BatchDone(p, snapshot, w, after, t, entries)
  {
    var shorter, x := entries[..|entries| - 1], entries[|entries| - 1];
    AddedLast(ViewOf(w, t).members, MembersFor(p, snapshot, t, shorter), x.commitment, MemberFor(p, snapshot, t, x));
    var leaves, leaf := ViewOf(w, t).tree.value.leaves, LeafOf(p, x.commitment, x.rate);
    assert leaves + (LeavesFor(p, shorter) + [leaf]) == (leaves + LeavesFor(p, shorter)) + [leaf];
    BatchGrowsConfig(ViewOf(w, t).config.value, ViewOf(mid, t).config.value, x.rate);
  }

  lemma BatchGrowsConfig(c0: ConfigState, c1: ConfigState, rate: u64)
    requires SameTerms(c0, c1)
    requires c1.totalRegistrations + 1 <= U64_MAX && c1.currentTotalRateLimit + rate <= U64_MAX
    ensures SameTerms(c0, Counted(c1, rate))
    ensures Counted(c1, rate).totalRegistrations == c1.totalRegistrations + 1
    ensures Counted(c1, rate).currentTotalRateLimit == c1.currentTotalRateLimit + rate
  {
  }

  lemma CountersFit(p: Params, t: Hash, v: View, rate: u64)
    requires Sound(p) && RegistryOk(p, t, v) && v.tree.Some? && rate <= MAX_RATE_LIMIT
    ensures v.config.Some? && v.config.value.totalRegistrations + 1 <= U64_MAX
    ensures v.config.value.currentTotalRateLimit + rate <= U64_MAX
  {
    CountedExactly(p, t, v, rate);
  }

  lemma AllCommitLonger(p: Params, w: World, actions: seq<Action>)
    requires actions != [] && AllCommit(p, w, actions[..|actions| - 1])
    requires Committed(p, Run(p, w, actions[..|actions| - 1]), actions[|actions| - 1])
    ensures AllCommit(p, w, actions)
  {
    var n := |actions| - 1;
    forall k: nat | k < |actions| ensures Committed(p, Run(p, w, actions[..k]), actions[k]) {
      if k < n {
        assert actions[..n][..k] == actions[..k] && actions[..n][k] == actions[k];
      }
    }
  }

  lemma NotPoorerLonger(w: World, mid: World, after: World, entries: seq<Entry>)
    requires entries != [] && NotPoorer(w, mid, entries[..|entries| - 1])
    requires NobodyElsePays(mid, after, entries[|entries| - 1].payer)
    ensures NotPoorer(w, after, entries)
  {
    assert entries[|entries| - 1] in entries;
  }

  /** The last entry of a batch, once the others are in. */
  lemma BatchStep(p: Params, snapshot: World, w: World, mid: World, t: Hash, entries: seq<Entry>)
    requires Sound(p) && WorldOk(p, mid) && RegistryOk(p, t, ViewOf(w, t)) && entries != []
    requires ViewOf(snapshot, t).config.Some? && Fits(p, w, t, entries)
    requires SameTerms(ViewOf(snapshot, t).config.value, ViewOf(w, t).config.value)
    requires ClockAccepts(w.clock, snapshot.clock)
    requires BatchDone(p, snapshot, w, mid, t, entries[..|entries| - 1])
    requires NotPoorer(w, mid, entries[..|entries| - 1])
    ensures var out := Execute(p, mid, TxOf(p, snapshot, t, entries[|entries| - 1]));
            && out.Done? && BatchDone(p, snapshot, w, out.value, t, entries) && NotPoorer(w, out.value, entries)
  {
    var x := entries[|entries| - 1];
    assert RegistryOk(p, t, ViewOf(mid, t));
    RoomAfterPrefix(p, snapshot, w, mid, t, entries);
    OneMore(p, snapshot, mid, t, x);
    CountersFit(p, t, ViewOf(mid, t), x.rate);
    var after := Execute(p, mid, TxOf(p, snapshot, t, x)).value;
    BatchGrows(p, snapshot, w, mid, after, t, entries);
    NotPoorerLonger(w, mid, after, entries);
  }

  lemma SubmitsLast(p: Params, snapshot: World, t: Hash, entries: seq<Entry>)
    requires ViewOf(snapshot, t).config.Some? && entries != []
    ensures var n, actions := |entries| - 1, Submits(p, snapshot, t, entries);
            && |actions| == n + 1 && actions[..n] == Submits(p, snapshot, t, entries[..n])
            && actions[n] == Submit(TxOf(p, snapshot, t, entries[n]))
  {
  }

  lemma RunLast(p: Params, w: World, actions: seq<Action>, after: World)
    requires actions != [] && actions[|actions| - 1].Submit?
    requires Execute(p, Run(p, w, actions[..|actions| - 1]), actions[|actions| - 1].tx) == Done(after)
    ensures Run(p, w, actions) == after
  {
  }

  lemma BatchNone(p: Params, snapshot: World, w: World, t: Hash)
    requires ViewOf(snapshot, t).config.Some? && ViewOf(w, t).config.Some? && ViewOf(w, t).tree.Some?
    ensures BatchDone(p, snapshot, w, w, t, [])
  {
    assert ViewOf(w, t).members + map[] == ViewOf(w, t).members;
  }

  lemma {:induction false} BatchCommits(p: Params, snapshot: World, w: World, t: Hash, entries: seq<Entry>)
    requires Sound(p) && WorldOk(p, w) && ViewOf(snapshot, t).config.Some? && Fits(p, w, t, entries)
    requires SameTerms(ViewOf(snapshot, t).config.value, ViewOf(w, t).config.value)
    requires ClockAccepts(w.clock, snapshot.clock)
    ensures AllCommit(p, w, Submits(p, snapshot, t, entries))
    ensures BatchDone(p, snapshot, w, Run(p, w, Submits(p, snapshot, t, entries)), t, entries)
    ensures NotPoorer(w, Run(p, w, Submits(p, snapshot, t, entries)), entries)
  {
    var actions := Submits(p, snapshot, t, entries);
    if entries == [] {
      BatchNone(p, snapshot, w, t);
    } else {
      var n := |entries| - 1;
      FitsPrefix(p, w, t, entries);
      SubmitsLast(p, snapshot, t, entries);
      BatchCommits(p, snapshot, w, t, entries[..n]);
      var mid := Run(p, w, actions[..n]);
      RunKeeps(p, w, actions[..n]);
      BatchStep(p, snapshot, w, mid, t, entries);
      RunLast(p, w, actions, Execute(p, mid, TxOf(p, snapshot, t, entries[n])).value);
      AllCommitLonger(p, w, actions);
    }
  }

  // ---- any order ----

  lemma {:induction false} RateTotalWithout(entries: seq<Entry>, i: nat)
    requires i < |entries|
    ensures RateTotal(entries) == RateTotal(entries[..i] + entries[i + 1..]) + entries[i].rate
  {
    var n := |entries| - 1;
    var rest := entries[..i] + entries[i + 1..];
    if i == n {
      assert rest == entries[..n];
    } else {
      RateTotalWithout(entries[..n], i);
      assert rest[..n - 1] == entries[..n][..i] + entries[..n][i + 1..];
      assert rest[n - 1] == entries[n];
    }
  }

  lemma SameWithoutOne(a: seq<Entry>, b: seq<Entry>, i: nat)
    requires a != [] && multiset(a) == multiset(b)
    requires i < |b| && b[i] == a[|a| - 1]
    ensures multiset(a[..|a| - 1]) == multiset(b[..i] + b[i + 1..])
  {
    var n := |a| - 1;
    TakeOut(a, n);
    TakeOut(b, i);
    assert a[..n] + a[n + 1..] == a[..n];
    assert multiset(a[..n]) == multiset(a) - multiset{a[n]};
    assert multiset(b[..i] + b[i + 1..]) == multiset(b) - multiset{b[i]};
  }

  lemma {:induction false} RateTotalAnyOrder(a: seq<Entry>, b: seq<Entry>)
    requires multiset(a) == multiset(b)
    ensures RateTotal(a) == RateTotal(b)
  {
    if a == [] {
      assert multiset(b) == multiset{};
      assert |b| == |multiset(b)|;
    } else {
      var n := |a| - 1;
      assert a[n] in multiset(a);
      assert a[n] in multiset(b);
      var i: nat :| i < |b| && b[i] == a[n];
      SameWithoutOne(a, b, i);
      RateTotalAnyOrder(a[..n], b[..i] + b[i + 1..]);
      RateTotalWithout(b, i);
    }
  }

  lemma {:induction false} MembersForAt(p: Params, snapshot: World, t: Hash, entries: seq<Entry>, x: Entry)
    requires ViewOf(snapshot, t).config.Some? && Distinct(entries) && x in entries
    ensures x.commitment in MembersFor(p, snapshot, t, entries)
    ensures MembersFor(p, snapshot, t, entries)[x.commitment] == MemberFor(p, snapshot, t, x)
  {
    DistinctPrefix(entries);
    if x != entries[|entries| - 1] {
      MembersForAt(p, snapshot, t, entries[..|entries| - 1], x);
    }
  }

  lemma MembersForAnyOrder(p: Params, snapshot: World, t: Hash, a: seq<Entry>, b: seq<Entry>)
    requires ViewOf(snapshot, t).config.Some? && Distinct(a) && multiset(a) == multiset(b)
    ensures MembersFor(p, snapshot, t, a) == MembersFor(p, snapshot, t, b)
  {
    assert forall x :: x in a <==> x in multiset(a) by {}
    assert forall x :: x in b <==> x in multiset(b) by {}
    var ma, mb := MembersFor(p, snapshot, t, a), MembersFor(p, snapshot, t, b);
    forall c ensures c in ma <==> c in mb {
      MembersForKeys(p, snapshot, t, a, c);
      MembersForKeys(p, snapshot, t, b, c);
    }
    forall c | c in ma ensures ma[c] == mb[c] {
      MembersForKeys(p, snapshot, t, a, c);
      var x :| x in a && x.commitment == c;
      MembersForAt(p, snapshot, t, a, x);
      MembersForAt(p, snapshot, t, b, x);
    }
  }

  lemma FitsAnyOrder(p: Params, w: World, t: Hash, a: seq<Entry>, b: seq<Entry>)
    requires Fits(p, w, t, a) && multiset(a) == multiset(b)
    ensures Fits(p, w, t, b)
  {
    assert forall x :: x in b <==> x in multiset(b) by {}
    assert forall x :: x in a <==> x in multiset(a) by {}
    assert |a| == |multiset(a)| == |multiset(b)| == |b|;
    RateTotalAnyOrder(a, b);
  }

  lemma BatchFromSnapshot(p: Params, snapshot: World, between: seq<Action>, t: Hash, entries: seq<Entry>)
    requires Sound(p) && Reachable(p, snapshot) && ViewOf(snapshot, t).config.Some?
    requires Fits(p, Run(p, snapshot, between), t, entries)
    requires ClockAccepts(Run(p, snapshot, between).clock, snapshot.clock)
    ensures var w := Run(p, snapshot, between);
            && AllCommit(p, w, Submits(p, snapshot, t, entries))
            && BatchDone(p, snapshot, w, Run(p, w, Submits(p, snapshot, t, entries)), t, entries)
  {
    ReachableOk(p, snapshot);
    RunKeeps(p, snapshot, between);
    RunProgress(p, snapshot, between, t);
    BatchCommits(p, snapshot, Run(p, snapshot, between), t, entries);
  }

  lemma SameConfig(c0: ConfigState, c1: ConfigState, c2: ConfigState)
    requires SameTerms(c0, c1) && SameTerms(c0, c2)
    requires c1.totalRegistrations == c2.totalRegistrations && c1.currentTotalRateLimit == c2.currentTotalRateLimit
    ensures c1 == c2
  {
  }

  /** The end of a batch only depends on its totals. */
  lemma SameEnd(p: Params, snapshot: World, w: World, afterA: World, afterB: World, t: Hash, a: seq<Entry>, b: seq<Entry>)
    requires ViewOf(snapshot, t).config.Some? && ViewOf(w, t).config.Some? && ViewOf(w, t).tree.Some?
    requires BatchDone(p, snapshot, w, afterA, t, a) && BatchDone(p, snapshot, w, afterB, t, b)
    requires RateTotal(a) == RateTotal(b) && |a| == |b|
    requires MembersFor(p, snapshot, t, a) == MembersFor(p, snapshot, t, b)
    ensures ViewOf(afterA, t).config == ViewOf(afterB, t).config
    ensures ViewOf(afterA, t).members == ViewOf(afterB, t).members
  {
    SameConfig(ViewOf(w, t).config.value, ViewOf(afterA, t).config.value, ViewOf(afterB, t).config.value);
  }

  /** n registrations planned from one snapshot, executed at any later time at which they fit: in every order all of
      them commit, take consecutive indices, and leave the same config and the same memberships. */
  lemma BatchAnyOrder(p: Params, snapshot: World, between: seq<Action>, t: Hash, a: seq<Entry>, b: seq<Entry>)
    requires Sound(p) && Reachable(p, snapshot) && multiset(a) == multiset(b)
    requires ViewOf(snapshot, t).config.Some? && Fits(p, Run(p, snapshot, between), t, a)
    requires ClockAccepts(Run(p, snapshot, between).clock, snapshot.clock)
    ensures var w := Run(p, snapshot, between);
            var afterA, afterB := Run(p, w, Submits(p, snapshot, t, a)), Run(p, w, Submits(p, snapshot, t, b));
            && AllCommit(p, w, Submits(p, snapshot, t, a)) && BatchDone(p, snapshot, w, afterA, t, a)
            && AllCommit(p, w, Submits(p, snapshot, t, b)) && BatchDone(p, snapshot, w, afterB, t, b)
            && ViewOf(afterA, t).config == ViewOf(afterB, t).config
            && ViewOf(afterA, t).members == ViewOf(afterB, t).members
  {
    var w := Run(p, snapshot, between);
    FitsAnyOrder(p, w, t, a, b);
    BatchFromSnapshot(p, snapshot, between, t, a);
    BatchFromSnapshot(p, snapshot, between, t, b);
    RateTotalAnyOrder(a, b);
    MembersForAnyOrder(p, snapshot, t, a, b);
    assert |a| == |multiset(a)| == |multiset(b)| == |b|;
    SameEnd(p, snapshot, w, Run(p, w, Submits(p, snapshot, t, a)), Run(p, w, Submits(p, snapshot, t, b)), t, a, b);
  }
}
