/** The invariant of one registry: counters, memberships and leaves are three tellings of the same story. */
module Ledger {
  import opened Bytes
  import opened Hashing
  import opened Outcomes
  import opened Registration
  import opened Registry
  import opened Sums
  import opened Tree

  ghost function Rates(members: map<Hash, MembershipState>): map<Hash, nat> {
    map c | c in members :: members[c].rateLimit
  }

  ghost function RateSum(members: map<Hash, MembershipState>): nat {
    Sum(Rates(members))
  }

  /** The memberships whose leaf is `h`. */
  ghost function Holders(p: Params, members: map<Hash, MembershipState>, h: Hash): set<Hash> {
    set c | c in members && LeafOf(p, c, members[c].rateLimit) == h
  }

  /** Every non-zero leaf value occurs in the tree exactly as often as memberships claim it, and the zero value at
      least as often; no assumption on collisions. */
  ghost predicate Balanced(p: Params, members: map<Hash, MembershipState>, leaves: seq<Hash>) {
    forall h :: BalancedAt(p, members, leaves, h)
  }

  ghost predicate BalancedAt(p: Params, members: map<Hash, MembershipState>, leaves: seq<Hash>, h: Hash) {
    && |Holders(p, members, h)| <= multiset(leaves)[h]
    && (h != ZERO ==> |Holders(p, members, h)| == multiset(leaves)[h])
  }

  /** A membership as registration makes it and renewals keep it. */
  ghost predicate MemberOk(p: Params, config: ConfigState, c: Hash, m: MembershipState) {
    && m.idCommitment == c && c != ZERO && p.isField(c)
    && MIN_RATE_LIMIT <= m.rateLimit <= MAX_RATE_LIMIT
    && m.activeSec == config.activeSec && m.graceSec == config.graceSec
  }

  ghost predicate MembersOk(p: Params, config: ConfigState, members: map<Hash, MembershipState>) {
    forall c :: c in members ==> MemberOk(p, config, c, members[c])
  }

  ghost predicate CountersOk(config: ConfigState, members: map<Hash, MembershipState>) {
    && config.totalRegistrations == |members|
    && config.currentTotalRateLimit == RateSum(members) <= config.maxTotalRateLimit
  }

  ghost predicate TreeAgrees(p: Params, config: ConfigState, members: map<Hash, MembershipState>, tree: Option<Tree>) {
    match tree
    case None => members == map[]
    case Some(t) =>
      && config.merkleProgram == MerkleProgram && TreeOk(p, t)
      && |members| <= |t.leaves| && Balanced(p, members, t.leaves)
  }

  ghost predicate RegistryOk(p: Params, t: Hash, v: View) {
    match v.config
    case None => v.members == map[] && v.tree.None?
    case Some(config) =>
      && config.treeId == t && config.activeSec > 0
      && MembersOk(p, config, v.members) && CountersOk(config, v.members)
      && TreeAgrees(p, config, v.members, v.tree)
  }

  // ---- sums and counts under one membership more or less ----

  lemma RatesWith(members: map<Hash, MembershipState>, c: Hash, m: MembershipState)
    requires c !in members
    ensures Rates(members[c := m]) == Rates(members)[c := m.rateLimit]
  {
  }

  lemma RateSumWith(members: map<Hash, MembershipState>, c: Hash, m: MembershipState)
    requires c !in members
    ensures RateSum(members[c := m]) == RateSum(members) + m.rateLimit
    ensures |members[c := m]| == |members| + 1
  {
    RatesWith(members, c, m);
    SumUpdate(Rates(members), c, m.rateLimit);
    assert Rates(members) - {c} == Rates(members);
    var more := members[c := m];
    assert more.Keys == members.Keys + {c};
  }

  lemma RateSumWithout(members: map<Hash, MembershipState>, c: Hash)
    requires c in members
    ensures RateSum(members - {c}) + members[c].rateLimit == RateSum(members)
    ensures |members - {c}| + 1 == |members|
  {
    SumWithout(Rates(members), c);
    assert Rates(members) - {c} == Rates(members - {c});
    SizeWithout(members, c);
  }

  lemma RateSumSame(members: map<Hash, MembershipState>, c: Hash, m: MembershipState)
    requires c in members && members[c].rateLimit == m.rateLimit
    ensures RateSum(members[c := m]) == RateSum(members)
    ensures |members[c := m]| == |members|
  {
    assert Rates(members[c := m]) == Rates(members);
    assert members[c := m].Keys == members.Keys;
  }

  /** A tree has room for every rate limit its members can claim. */
  lemma RateSumBound(p: Params, config: ConfigState, members: map<Hash, MembershipState>)
    requires MembersOk(p, config, members)
    ensures RateSum(members) <= MAX_RATE_LIMIT * |members|
  {
    SumAtMost(Rates(members), MAX_RATE_LIMIT);
    assert Rates(members).Keys == members.Keys;
  }

  lemma HolderWith(p: Params, members: map<Hash, MembershipState>, c: Hash, m: MembershipState, h: Hash, x: Hash)
    requires c !in members
    ensures x in Holders(p, members[c := m], h) <==>
            x in Holders(p, members, h) || (x == c && LeafOf(p, c, m.rateLimit) == h)
  {
  }

  lemma HoldersWith(p: Params, members: map<Hash, MembershipState>, c: Hash, m: MembershipState, h: Hash)
    requires c !in members
    ensures |Holders(p, members[c := m], h)| ==
            |Holders(p, members, h)| + if LeafOf(p, c, m.rateLimit) == h then 1 else 0
  {
    var before, after := Holders(p, members, h), Holders(p, members[c := m], h);
    forall x ensures x in after <==> x in before || (x == c && LeafOf(p, c, m.rateLimit) == h) {
      HolderWith(p, members, c, m, h, x);
    }
    if LeafOf(p, c, m.rateLimit) == h {
      assert after == before + {c};
    } else {
      assert after == before;
    }
  }

  lemma HoldersWithout(p: Params, members: map<Hash, MembershipState>, c: Hash, h: Hash)
    requires c in members
    ensures |Holders(p, members, h)| ==
            |Holders(p, members - {c}, h)| + if LeafOf(p, c, members[c].rateLimit) == h then 1 else 0
  {
    if LeafOf(p, c, members[c].rateLimit) == h {
      assert Holders(p, members, h) == Holders(p, members - {c}, h) + {c};
    } else {
      assert Holders(p, members, h) == Holders(p, members - {c}, h);
    }
  }

  lemma HoldersSame(p: Params, members: map<Hash, MembershipState>, c: Hash, m: MembershipState, h: Hash)
    requires c in members && members[c].rateLimit == m.rateLimit
    ensures Holders(p, members[c := m], h) == Holders(p, members, h)
  {
  }

  // ---- the tree under one membership more or less ----

  lemma BalancedWith(p: Params, members: map<Hash, MembershipState>, leaves: seq<Hash>, c: Hash, m: MembershipState)
    requires Balanced(p, members, leaves) && c !in members
    ensures Balanced(p, members[c := m], leaves + [LeafOf(p, c, m.rateLimit)])
  {
    var more, longer := members[c := m], leaves + [LeafOf(p, c, m.rateLimit)];
    forall h ensures BalancedAt(p, more, longer, h) {
      assert BalancedAt(p, members, leaves, h);
      HoldersWith(p, members, c, m, h);
    }
  }

  lemma BalancedWithout(p: Params, members: map<Hash, MembershipState>, leaves: seq<Hash>, c: Hash, i: nat)
    requires Balanced(p, members, leaves) && c in members
    requires i < |leaves| && leaves[i] == LeafOf(p, c, members[c].rateLimit)
    ensures Balanced(p, members - {c}, leaves[i := ZERO])
  {
    var fewer, zeroed := members - {c}, leaves[i := ZERO];
    forall h ensures BalancedAt(p, fewer, zeroed, h) {
      assert BalancedAt(p, members, leaves, h);
      HoldersWithout(p, members, c, h);
      assert multiset(zeroed) == multiset(leaves) - multiset{leaves[i]} + multiset{ZERO};
    }
  }

  lemma BalancedSame(p: Params, members: map<Hash, MembershipState>, leaves: seq<Hash>, c: Hash, m: MembershipState)
    requires Balanced(p, members, leaves) && c in members && members[c].rateLimit == m.rateLimit
    ensures Balanced(p, members[c := m], leaves)
  {
    var same := members[c := m];
    forall h ensures BalancedAt(p, same, leaves, h) {
      assert BalancedAt(p, members, leaves, h);
      HoldersSame(p, members, c, m, h);
    }
  }

  // ---- no counter ever saturates ----

  /** A registration that fits the tree cannot saturate the counters, whatever the cap. */
  lemma CountedExactly(p: Params, t: Hash, v: View, rate: u64)
    requires Sound(p) && RegistryOk(p, t, v) && v.tree.Some?
    requires rate <= MAX_RATE_LIMIT
    ensures var config, counted := v.config.value, Counted(v.config.value, rate);
            && counted.totalRegistrations == config.totalRegistrations + 1
            && counted.currentTotalRateLimit == config.currentTotalRateLimit + rate
  {
    RateSumBound(p, v.config.value, v.members);
    Pow2Monotone(p.depth, 15);
    assert Pow2(15) == 32768;
  }

  lemma UncountedExactly(v: View, c: Hash)
    requires v.config.Some? && CountersOk(v.config.value, v.members) && c in v.members
    ensures var config, uncounted := v.config.value, Uncounted(v.config.value, v.members[c].rateLimit);
            && uncounted.totalRegistrations == config.totalRegistrations - 1
            && uncounted.currentTotalRateLimit == config.currentTotalRateLimit - v.members[c].rateLimit
  {
    RateSumWithout(v.members, c);
  }

  // ---- every instruction keeps the invariant ----

  lemma JoinKeeps(p: Params, t: Hash, v: View, c: Hash, m: MembershipState)
    requires Sound(p) && RegistryOk(p, t, v) && v.tree.Some? && |v.tree.value.leaves| < Pow2(p.depth)
    requires c !in v.members && MemberOk(p, v.config.value, c, m) && CanRegister(v.config.value, m.rateLimit)
    ensures RegistryOk(p, t, Joined(p, v, c, m))
  {
    var tree := v.tree.value;
    CountedExactly(p, t, v, m.rateLimit);
    RateSumWith(v.members, c, m);
    BalancedWith(p, v.members, tree.leaves, c, m);
    LeafIsField(p, c, m.rateLimit);
    WriteOk(p, tree, |tree.leaves|, LeafOf(p, c, m.rateLimit));
  }

  lemma LeafIsField(p: Params, c: Hash, rate: u64)
    requires Sound(p) && p.isField(c)
    ensures p.isField(LeafOf(p, c, rate))
  {
  }

  lemma LeaveKeeps(p: Params, t: Hash, v: View, c: Hash, i: nat)
    requires Sound(p) && RegistryOk(p, t, v) && v.tree.Some? && c in v.members
    requires i < |v.tree.value.leaves| && v.tree.value.leaves[i] == LeafOf(p, c, v.members[c].rateLimit)
    ensures RegistryOk(p, t, Departed(p, v, c, v.members[c].rateLimit, i))
  {
    UncountedExactly(v, c);
    RateSumWithout(v.members, c);
    BalancedWithout(p, v.members, v.tree.value.leaves, c, i);
    WriteOk(p, v.tree.value, i, ZERO);
  }

  lemma ExtendKeeps(p: Params, t: Hash, v: View, c: Hash)
    requires Sound(p) && RegistryOk(p, t, v) && c in v.members
    ensures RegistryOk(p, t, Prolonged(v, c))
  {
    RateSumSame(v.members, c, Renewed(v.members[c]));
    BalancedSame(p, v.members, v.tree.value.leaves, c, Renewed(v.members[c]));
  }

  lemma EmptyRegistry(p: Params, config: ConfigState)
    ensures MembersOk(p, config, map[]) && RateSum(map[]) == 0
    ensures Balanced(p, map[], [])
  {
    assert Rates(map[]) == map[];
    forall h ensures BalancedAt(p, map[], [], h) {
      assert Holders(p, map[], h) == {};
    }
  }

  lemma InitializeKeeps(p: Params, t: Hash, v: View, ix: Instruction)
    requires RegistryOk(p, t, v) && ix.treeId == t && v.config.None?
    requires ix.Initialize? && WellFormed(p, ix)
    ensures RegistryOk(p, t, v.(config := Some(NewConfig(ix))))
  {
    EmptyRegistry(p, NewConfig(ix));
  }

  lemma InitializeTreeKeeps(p: Params, t: Hash, v: View)
    requires Sound(p) && RegistryOk(p, t, v)
    requires v.config.Some? && v.config.value.merkleProgram == MerkleProgram && v.tree.None?
    ensures RegistryOk(p, t, v.(tree := Some(EMPTY_TREE)))
  {
    EmptyRegistry(p, v.config.value);
  }

  /** Whatever commits, the three tellings still agree. */
  lemma EnabledKeeps(p: Params, t: Hash, v: View, clock: u64, purse: nat, treasury: AccountId, ix: Instruction)
    requires Sound(p) && RegistryOk(p, t, v) && ix.treeId == t
    requires Enabled(p, v, clock, purse, treasury, ix)
    ensures RegistryOk(p, t, After(p, v, clock, purse, treasury, ix))
  {
    match ix
    case Initialize(_, _, _, _, _, _, _) => InitializeKeeps(p, t, v, ix);
    case InitializeMerkleTree(_, _) => InitializeTreeKeeps(p, t, v);
    case Register(_, c, _, _, _, _, _, _) => JoinKeeps(p, t, v, c, NewMember(ix));
    case Slash(_, c, _, _, index, _) => LeaveKeeps(p, t, v, c, index);
    case Extend(_, c, _, _, _) => ExtendKeeps(p, t, v, c);
    case Erase(_, c, _, index, _, _) => LeaveKeeps(p, t, v, c, index);
  }
}
