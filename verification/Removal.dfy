/** Memberships and leaves: when they correspond one to one, and why a membership can always be ended. */
module Removal {
  import opened Bytes
  import opened Commits
  import opened Executor
  import opened Hashing
  import opened Honest
  import opened Ledger
  import opened Registration
  import opened Registry
  import opened Runs
  import opened Slots
  import opened Sums
  import opened Views

  // ---- one to one ----

  function LeafIn(p: Params, v: View, c: Hash): Hash
    requires c in v.members
  {
    LeafOf(p, c, v.members[c].rateLimit)
  }

  /** Membership `c` occupies slot `i`. */
  ghost predicate Sits(p: Params, v: View, c: Hash, i: nat) {
    c in v.members && i < |LeavesOf(v)| && LeavesOf(v)[i] == LeafIn(p, v, c) && LeafIn(p, v, c) != ZERO
  }

  ghost predicate OneToOne(p: Params, v: View) {
    && (forall c :: c in v.members ==> exists i :: Sits(p, v, c, i))
    && (forall i: nat :: i < |LeavesOf(v)| && LeavesOf(v)[i] != ZERO ==> exists c :: Sits(p, v, c, i))
    && (forall c, i, j :: Sits(p, v, c, i) && Sits(p, v, c, j) ==> i == j)
    && (forall c, d, i :: Sits(p, v, c, i) && Sits(p, v, d, i) ==> c == d)
  }

  /** No two live memberships share a leaf value, and none has the empty one. */
  ghost predicate CollisionFree(p: Params, v: View) {
    && (forall c :: c in v.members ==> LeafIn(p, v, c) != ZERO)
    && (forall c, d :: c in v.members && d in v.members && LeafIn(p, v, c) == LeafIn(p, v, d) ==> c == d)
  }

  lemma HolderOf(p: Params, v: View, h: Hash)
    requires Balanced(p, v.members, LeavesOf(v))
    ensures h != ZERO && h in LeavesOf(v) ==> exists c :: c in v.members && LeafIn(p, v, c) == h
  {
    assert BalancedAt(p, v.members, LeavesOf(v), h);
    if h != ZERO && h in LeavesOf(v) {
      assert h in multiset(LeavesOf(v));
      assert Holders(p, v.members, h) != {};
      var c :| c in Holders(p, v.members, h);
      assert LeafIn(p, v, c) == h;
    }
  }

  /** Every live membership's leaf is in the tree, even when it hashes to the empty value. */
  lemma LeafIsThere(p: Params, v: View, c: Hash)
    requires Balanced(p, v.members, LeavesOf(v)) && c in v.members
    ensures LeafIn(p, v, c) in LeavesOf(v)
  {
    var h := LeafIn(p, v, c);
    assert BalancedAt(p, v.members, LeavesOf(v), h);
    assert c in Holders(p, v.members, h);
    assert |Holders(p, v.members, h)| > 0;
    assert h in multiset(LeavesOf(v));
  }

  lemma OneSlot(p: Params, v: View, c: Hash, i: nat, j: nat)
    requires Balanced(p, v.members, LeavesOf(v)) && CollisionFree(p, v)
    requires Sits(p, v, c, i) && Sits(p, v, c, j)
    ensures i == j
  {
    var h := LeafIn(p, v, c);
    assert BalancedAt(p, v.members, LeavesOf(v), h);
    assert Holders(p, v.members, h) == {c};
    if i < j {
      TwiceInSeq(LeavesOf(v), i, j);
    } else if j < i {
      TwiceInSeq(LeavesOf(v), j, i);
    }
  }

  lemma BalancedView(p: Params, t: Hash, v: View)
    requires RegistryOk(p, t, v)
    ensures Balanced(p, v.members, LeavesOf(v))
  {
    if v.tree.None? {
      EmptyBalance(p);
    }
  }

  lemma EmptyBalance(p: Params)
    ensures Balanced(p, map[], [])
  {
    forall h ensures BalancedAt(p, map[], [], h) {
      assert Holders(p, map[], h) == {};
    }
  }

  lemma CollisionFreeIsOneToOne(p: Params, v: View)
    requires Balanced(p, v.members, LeavesOf(v)) && CollisionFree(p, v)
    ensures OneToOne(p, v)
  {
    forall c | c in v.members ensures exists i :: Sits(p, v, c, i) {
      LeafIsThere(p, v, c);
      var i: nat :| i < |LeavesOf(v)| && LeavesOf(v)[i] == LeafIn(p, v, c);
      assert Sits(p, v, c, i);
    }
    forall i: nat | i < |LeavesOf(v)| && LeavesOf(v)[i] != ZERO ensures exists c :: Sits(p, v, c, i) {
      HolderOf(p, v, LeavesOf(v)[i]);
      var c :| c in v.members && LeafIn(p, v, c) == LeavesOf(v)[i];
      assert Sits(p, v, c, i);
    }
    forall c, i, j | Sits(p, v, c, i) && Sits(p, v, c, j) ensures i == j {
      OneSlot(p, v, c, i, j);
    }
  }

  lemma OneToOneIsCollisionFree(p: Params, v: View)
    requires OneToOne(p, v)
    ensures CollisionFree(p, v)
  {
    forall c | c in v.members ensures LeafIn(p, v, c) != ZERO {
      var i :| Sits(p, v, c, i);
    }
    forall c, d | c in v.members && d in v.members && LeafIn(p, v, c) == LeafIn(p, v, d) ensures c == d {
      var i :| Sits(p, v, c, i);
      assert Sits(p, v, d, i);
    }
  }

  /** In a reachable state live memberships and occupied slots correspond one to one exactly when the live
      memberships' hashes do not collide with each other or with the empty leaf. */
  lemma OneToOneExactly(p: Params, w: World, t: Hash)
    requires Sound(p) && Reachable(p, w)
    ensures OneToOne(p, ViewOf(w, t)) <==> CollisionFree(p, ViewOf(w, t))
  {
    ReachableOk(p, w);
    BalancedView(p, t, ViewOf(w, t));
    if CollisionFree(p, ViewOf(w, t)) {
      CollisionFreeIsOneToOne(p, ViewOf(w, t));
    }
    if OneToOne(p, ViewOf(w, t)) {
      OneToOneIsCollisionFree(p, ViewOf(w, t));
    }
  }

  // ---- removal is never stuck ----

  /** Between `w` and `after`, tree `t` lost membership `c` and one slot holding its leaf, and nothing else happened. */
  ghost predicate Ended(p: Params, w: World, after: World, t: Hash, c: Hash, i: nat)
    requires c in ViewOf(w, t).members
  {
    var v, v' := ViewOf(w, t), ViewOf(after, t);
    && v'.members == v.members - {c}
    && i < |LeavesOf(v)| && LeavesOf(v)[i] == LeafIn(p, v, c) && v'.tree.Some? && LeavesOf(v') == LeavesOf(v)[i := ZERO]
    && v.config.Some? && v'.config.Some? && SameTerms(v.config.value, v'.config.value)
    && v'.config.value.totalRegistrations + 1 == v.config.value.totalRegistrations
    && v'.config.value.currentTotalRateLimit + v.members[c].rateLimit == v.config.value.currentTotalRateLimit
    && after.balances == w.balances
    && forall other :: other != t ==> ViewOf(after, other) == ViewOf(w, other)
  }

  lemma HintHits(p: Params, t: Hash, v: View, c: Hash)
    requires Sound(p) && RegistryOk(p, t, v) && c in v.members
    ensures Hits(p, v.tree, Hint(p, v, c), LeafIn(p, v, c))
  {
    BalancedView(p, t, v);
    LeafIsThere(p, v, c);
    Pow2Monotone(p.depth, 15);
    assert Pow2(15) == 32768;
  }

  lemma DepartedIsEnded(p: Params, w: World, after: World, t: Hash, c: Hash, i: nat, balances: map<AccountId, nat>)
    requires RegistryOk(p, t, ViewOf(w, t)) && c in ViewOf(w, t).members
    requires Hits(p, ViewOf(w, t).tree, i, LeafIn(p, ViewOf(w, t), c)) && balances == w.balances
    requires Becomes(w, after, t, Departed(p, ViewOf(w, t), c, ViewOf(w, t).members[c].rateLimit, i), balances)
    ensures Ended(p, w, after, t, c, i)
  {
    UncountedExactly(ViewOf(w, t), c);
  }

  /** What the invariant says about one live membership. */
  ghost predicate Live(p: Params, t: Hash, v: View, c: Hash) {
    && c in v.members && v.members[c].idCommitment == c && p.isField(c)
    && v.config.Some? && v.config.value.treeId == t && v.config.value.merkleProgram == MerkleProgram
    && Hits(p, v.tree, Hint(p, v, c), LeafIn(p, v, c))
  }

  lemma MembersAreLive(p: Params, t: Hash, v: View, c: Hash)
    requires Sound(p) && RegistryOk(p, t, v) && c in v.members
    ensures Live(p, t, v, c)
  {
    assert MemberOk(p, v.config.value, c, v.members[c]);
    HintHits(p, t, v, c);
  }

  lemma SlashAllowed(p: Params, w: World, t: Hash, c: Hash, secret: Hash)
    requires Live(p, t, ViewOf(w, t), c)
    requires p.isField(secret) && p.h1(secret) == c
    ensures Allowed(p, w, w, t, ToSlash(c, secret))
  {
  }

  /** Whoever knows a member's secret can always slash it, in any reachable state, at the slot the scan finds. */
  lemma SlashNeverStuck(p: Params, w: World, t: Hash, c: Hash, secret: Hash)
    requires Sound(p) && Reachable(p, w) && c in ViewOf(w, t).members
    requires p.isField(secret) && p.h1(secret) == c
    ensures ViewOf(w, t).config.Some?
    ensures var out := Execute(p, w, TxOf(p, w, t, ToSlash(c, secret)));
            out.Done? && Ended(p, w, out.value, t, c, Hint(p, ViewOf(w, t), c))
  {
    ReachableOk(p, w);
    var v := ViewOf(w, t);
    assert RegistryOk(p, t, v);
    MembersAreLive(p, t, v, c);
    SlashAllowed(p, w, t, c, secret);
    HonestCommits(p, w, w, t, ToSlash(c, secret));
    DepartedIsEnded(p, w, Execute(p, w, TxOf(p, w, t, ToSlash(c, secret))).value, t, c, Hint(p, v, c), w.balances);
  }

  lemma EraseAllowed(p: Params, w: World, t: Hash, c: Hash)
    requires Live(p, t, ViewOf(w, t), c)
    ensures var m := ViewOf(w, t).members[c];
            Allowed(p, w, w, t, ToErase(c)) <==> 0 < w.clock && IsExpired(m.graceStart, SecsToMillis(m.graceSec), w.clock)
  {
  }

  /** Anyone can erase a membership exactly from the moment the chain's clock has it expired. */
  lemma EraseExactlyWhenExpired(p: Params, w: World, t: Hash, c: Hash)
    requires Sound(p) && Reachable(p, w) && c in ViewOf(w, t).members
    ensures ViewOf(w, t).config.Some?
    ensures var m := ViewOf(w, t).members[c];
            var out := Execute(p, w, TxOf(p, w, t, ToErase(c)));
            if 0 < w.clock && IsExpired(m.graceStart, SecsToMillis(m.graceSec), w.clock)
            then out.Done? && Ended(p, w, out.value, t, c, Hint(p, ViewOf(w, t), c))
            else out.IsFailure()
  {
    ReachableOk(p, w);
    var v := ViewOf(w, t);
    assert RegistryOk(p, t, v);
    MembersAreLive(p, t, v, c);
    EraseAllowed(p, w, t, c);
    HonestCommits(p, w, w, t, ToErase(c));
    var out := Execute(p, w, TxOf(p, w, t, ToErase(c)));
    if out.Done? {
      DepartedIsEnded(p, w, out.value, t, c, Hint(p, v, c), w.balances);
    }
  }
}
