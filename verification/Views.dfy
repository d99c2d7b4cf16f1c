/** Each tree's registry as a view of the chain's shards, and how one write shows in the views. */
module Views {
  import opened Bytes
  import opened Executor
  import opened Outcomes
  import opened Registration
  import opened Registry
  import opened Tree

  function ConfigSel(t: Hash): Selector {
    Selector(ConfigPda(t), RegistrationProgram)
  }

  function MemberSel(t: Hash, commitment: Hash): Selector {
    Selector(MembershipPda(t, commitment), RegistrationProgram)
  }

  function MainSel(t: Hash): Selector {
    Selector(MainPda(t), MerkleProgram)
  }

  ghost predicate IsMemberOf(w: World, t: Hash, s: Selector) {
    && s in w.shards && w.shards[s].MembershipShard?
    && s.program == RegistrationProgram && s.account.MembershipPda? && s.account.tree == t
  }

  ghost function MemberKeys(w: World, t: Hash): set<Hash> {
    set s | s in w.shards && IsMemberOf(w, t, s) :: s.account.commitment
  }

  lemma MemberKeysIs(w: World, t: Hash, c: Hash)
    ensures c in MemberKeys(w, t) <==> MemberSel(t, c) in w.shards && w.shards[MemberSel(t, c)].MembershipShard?
  {
    if MemberSel(t, c) in w.shards && w.shards[MemberSel(t, c)].MembershipShard? {
      assert IsMemberOf(w, t, MemberSel(t, c));
    }
    if c in MemberKeys(w, t) {
      var s :| s in w.shards && IsMemberOf(w, t, s) && s.account.commitment == c;
      assert s == MemberSel(t, c);
    }
  }

  ghost function Members(w: World, t: Hash): (m: map<Hash, MembershipState>)
    ensures forall c :: c in m <==> MemberSel(t, c) in w.shards && w.shards[MemberSel(t, c)].MembershipShard?
    ensures forall c :: c in m ==> m[c] == w.shards[MemberSel(t, c)].membership
  {
    assert forall c :: c in MemberKeys(w, t) <==>
                       MemberSel(t, c) in w.shards && w.shards[MemberSel(t, c)].MembershipShard? by {
      forall c {
        MemberKeysIs(w, t, c);
      }
    }
    map c | c in MemberKeys(w, t) :: w.shards[MemberSel(t, c)].membership
  }

  ghost function ViewOf(w: World, t: Hash): View {
    View(if ConfigSel(t) in w.shards && w.shards[ConfigSel(t)].ConfigShard?
         then Some(w.shards[ConfigSel(t)].config) else None,
         Members(w, t),
         if MainSel(t) in w.shards && w.shards[MainSel(t)].TreeShard? then Some(w.shards[MainSel(t)].tree) else None)
  }

  /** Every shard of the two programs' PDAs holds the kind of data its program writes there. */
  ghost predicate WellTyped(w: World) {
    && (forall t :: ConfigSel(t) in w.shards ==> w.shards[ConfigSel(t)].ConfigShard?)
    && (forall t, c :: MemberSel(t, c) in w.shards ==> w.shards[MemberSel(t, c)].MembershipShard?)
    && (forall t :: MainSel(t) in w.shards ==> w.shards[MainSel(t)].TreeShard?)
  }

  // ---- how one write shows in the views ----

  lemma WriteConfig(w: World, t: Hash, config: ConfigState, other: Hash)
    ensures var w' := WriteShard(w, ConfigSel(t), Replace(ConfigShard(config)));
            && ViewOf(w', other) == (if other == t then ViewOf(w, t).(config := Some(config)) else ViewOf(w, other))
            && (WellTyped(w) ==> WellTyped(w'))
  {
    var w' := WriteShard(w, ConfigSel(t), Replace(ConfigShard(config)));
    assert Members(w', other) == Members(w, other);
  }

  lemma WriteMember(w: World, t: Hash, c: Hash, m: MembershipState, other: Hash)
    ensures var w' := WriteShard(w, MemberSel(t, c), Replace(MembershipShard(m)));
            ViewOf(w', other) == (if other == t then ViewOf(w, t).(members := ViewOf(w, t).members[c := m])
                                  else ViewOf(w, other))
  {
    var w' := WriteShard(w, MemberSel(t, c), Replace(MembershipShard(m)));
    if other == t {
      MembersWritten(w, t, c, m);
    } else {
      MembersKept(w, w', t, c, other);
    }
  }

  lemma ClearMember(w: World, t: Hash, c: Hash, other: Hash)
    ensures var w' := WriteShard(w, MemberSel(t, c), Clear);
            ViewOf(w', other) == (if other == t then ViewOf(w, t).(members := ViewOf(w, t).members - {c})
                                  else ViewOf(w, other))
  {
    var w' := WriteShard(w, MemberSel(t, c), Clear);
    if other == t {
      assert Members(w', t) == Members(w, t) - {c};
    } else {
      MembersKept(w, w', t, c, other);
    }
  }

  lemma MembersWritten(w: World, t: Hash, c: Hash, m: MembershipState)
    ensures Members(WriteShard(w, MemberSel(t, c), Replace(MembershipShard(m))), t) == Members(w, t)[c := m]
  {
  }

  lemma MembersKept(w: World, w': World, t: Hash, c: Hash, other: Hash)
    requires other != t
    requires forall s :: s != MemberSel(t, c) ==> (s in w'.shards <==> s in w.shards)
    requires forall s :: s != MemberSel(t, c) && s in w.shards ==> w'.shards[s] == w.shards[s]
    ensures Members(w', other) == Members(w, other)
  {
  }

  lemma MemberTyped(w: World, t: Hash, c: Hash, update: Update)
    requires WellTyped(w) && (update.Replace? ==> update.data.MembershipShard?)
    ensures WellTyped(WriteShard(w, MemberSel(t, c), update))
  {
  }

  lemma WriteTree(w: World, t: Hash, tree: Tree, other: Hash)
    ensures var w' := WriteShard(w, MainSel(t), Replace(TreeShard(tree)));
            && ViewOf(w', other) == (if other == t then ViewOf(w, t).(tree := Some(tree)) else ViewOf(w, other))
            && (WellTyped(w) ==> WellTyped(w'))
  {
    var w' := WriteShard(w, MainSel(t), Replace(TreeShard(tree)));
    assert Members(w', other) == Members(w, other);
  }

  /** A tree kept on an account that is no PDA is nobody's registry. */
  lemma WriteElsewhere(w: World, a: AccountId, tree: Tree, other: Hash)
    requires a.Plain?
    ensures var w' := WriteShard(w, Selector(a, MerkleProgram), Replace(TreeShard(tree)));
            && ViewOf(w', other) == ViewOf(w, other)
            && (WellTyped(w) ==> WellTyped(w'))
  {
    var w' := WriteShard(w, Selector(a, MerkleProgram), Replace(TreeShard(tree)));
    assert Members(w', other) == Members(w, other);
  }

  /** Views and typing only depend on the shards. */
  lemma SameShardsSameView(w: World, w': World, t: Hash)
    requires w.shards == w'.shards
    ensures ViewOf(w', t) == ViewOf(w, t)
    ensures WellTyped(w) ==> WellTyped(w')
  {
    assert Members(w', t) == Members(w, t);
  }
}
