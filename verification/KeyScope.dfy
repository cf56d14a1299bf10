/** Global API deployment keys: what a key may reach, and how creates, partial updates, rotations
    and deletions change that. */
module KeyScope {
  import opened Options

  type OrgId = nat
  type DepId = nat
  type KeyId = nat
  type Token = nat

  datatype Key = Key(org: OrgId, name: string, token: Token, isActive: bool, allowAll: bool, listed: set<DepId>)

  /** `issued` are all tokens handed out so far; a new one is never among them. */
  datatype Tables = Tables(deployments: map<DepId, OrgId>, keys: map<KeyId, Key>, issued: set<Token>)

  datatype Error = NotFound | BadText | NameTaken | ForeignDeployment | ListWithAllowAll | NothingSelected

  datatype Result<T> = Ok(value: T) | Err(error: Error)

  /** What the caller sent; a field that was not sent is `None`. */
  datatype CreateAttrs = CreateAttrs(name: string, allowAll: Option<bool>, listed: Option<seq<DepId>>)
  datatype PatchAttrs = PatchAttrs(isActive: Option<bool>, allowAll: Option<bool>, listed: Option<seq<DepId>>)

  function Sent<T>(o: Option<T>, otherwise: T): T { if o.Some? then o.value else otherwise }

  function AsSet(ds: seq<DepId>): set<DepId> { set d | d in ds }

  /** The field only accepts deployments of the caller's organization. */
  predicate OwnDeployments(t: Tables, org: OrgId, ds: Option<seq<DepId>>) {
    ds.Some? ==> forall d | d in ds.value :: d in t.deployments && t.deployments[d] == org
  }

  predicate NameInUse(t: Tables, org: OrgId, name: string) {
    exists k | k in t.keys :: t.keys[k].org == org && t.keys[k].name == name
  }

  /** `has_access_to_deployment`. */
  predicate HasAccess(t: Tables, key: Key, d: DepId) {
    && key.isActive
    && d in t.deployments && t.deployments[d] == key.org
    && (key.allowAll || d in key.listed)
  }

  /** The key validates a request to `d` that carries `token`. */
  predicate Authenticates(t: Tables, token: Token, d: DepId) {
    exists k | k in t.keys :: t.keys[k].token == token && HasAccess(t, t.keys[k], d)
  }

  // ---------------------------------------------------------------- operations as transitions

  datatype Op =
    | AddDeployment(d: DepId, org: OrgId)
    | DropDeployment(d: DepId)
    | Create(org: OrgId, id: KeyId, token: Token, attrs: CreateAttrs, textOk: bool)
    | Patch(org: OrgId, id: KeyId, patch: PatchAttrs, textOk: bool)
    | Rotate(org: OrgId, id: KeyId, token: Token)
    | DropKey(org: OrgId, id: KeyId)

  /** Identifiers and tokens are new when they are drawn. */
  predicate Enabled(t: Tables, op: Op) {
    match op
    case AddDeployment(d, _) => d !in t.deployments
    case Create(_, id, token, _, _) => id !in t.keys && token !in t.issued
    case Rotate(_, _, token) => token !in t.issued
    case _ => true
  }

  predicate Found(t: Tables, org: OrgId, id: KeyId) { id in t.keys && t.keys[id].org == org }

  predicate AcceptsCreate(t: Tables, org: OrgId, attrs: CreateAttrs, textOk: bool) {
    && textOk && !NameInUse(t, org, attrs.name) && OwnDeployments(t, org, attrs.listed)
    && (Sent(attrs.allowAll, false) <==> Sent(attrs.listed, []) == [])
  }

  /** Whether the key is to be allow-all after the update. */
  function EffectiveAllowAll(key: Key, patch: PatchAttrs): bool { Sent(patch.allowAll, key.allowAll) }

  /** An update is refused when it names a list for an allow-all key, or leaves a key it touches
      the scope of with nothing. */
  predicate AcceptsScope(key: Key, patch: PatchAttrs) {
    if EffectiveAllowAll(key, patch) then Sent(patch.listed, []) == []
    else if patch.listed.Some? then patch.listed.value != []
    else patch.allowAll.Some? ==> key.listed != {}
  }

  function Patched(key: Key, patch: PatchAttrs): Key {
    var allowAll := EffectiveAllowAll(key, patch);
    key.(isActive := Sent(patch.isActive, key.isActive),
         allowAll := allowAll,
         listed := if allowAll then {} else if patch.listed.Some? then AsSet(patch.listed.value) else key.listed)
  }

  function Without(t: Tables, d: DepId): Tables {
    t.(deployments := t.deployments - {d},
       keys := map k | k in t.keys :: t.keys[k].(listed := t.keys[k].listed - {d}))
  }

  /** A refused request changes nothing. */
  function Apply(t: Tables, op: Op): Tables {
    match op
    case AddDeployment(d, org) => t.(deployments := t.deployments[d := org])
    case DropDeployment(d) => Without(t, d)
    case Create(org, id, token, attrs, textOk) =>
      if AcceptsCreate(t, org, attrs, textOk) then
        t.(keys := t.keys[id := Key(org, attrs.name, token, true, Sent(attrs.allowAll, false),
                                    AsSet(Sent(attrs.listed, [])))],
           issued := t.issued + {token})
      else t
    case Patch(org, id, patch, textOk) =>
      if Found(t, org, id) && textOk && OwnDeployments(t, org, patch.listed) && AcceptsScope(t.keys[id], patch) then
        t.(keys := t.keys[id := Patched(t.keys[id], patch)])
      else t
    case Rotate(org, id, token) =>
      if Found(t, org, id)
        then t.(keys := t.keys[id := t.keys[id].(token := token)], issued := t.issued + {token}) else t
    case DropKey(org, id) =>
      if Found(t, org, id) then t.(keys := t.keys - {id}) else t
  }

  // ---------------------------------------------------------------- invariant

  /** An allow-all key lists nothing, and what a key lists are deployments of its organization. */
  predicate ScopeIsCoherent(t: Tables, key: Key) {
    && (key.allowAll ==> key.listed == {})
    && forall d | d in key.listed :: d in t.deployments && t.deployments[d] == key.org
  }

  ghost predicate ScopesCoherent(t: Tables) { forall k | k in t.keys :: ScopeIsCoherent(t, t.keys[k]) }

  ghost predicate NamesUnique(t: Tables) {
    forall k, l | k in t.keys && l in t.keys && t.keys[k].org == t.keys[l].org &&
      t.keys[k].name == t.keys[l].name :: k == l
  }

  ghost predicate TokensUnique(t: Tables) {
    && (forall k | k in t.keys :: t.keys[k].token in t.issued)
    && (forall k, l | k in t.keys && l in t.keys && t.keys[k].token == t.keys[l].token :: k == l)
  }

  ghost predicate Inv(t: Tables) { ScopesCoherent(t) && NamesUnique(t) && TokensUnique(t) }

  /** The key that results from an accepted request is coherent. */
  lemma NewScopesCohere(t: Tables, op: Op, k: KeyId)
    requires ScopesCoherent(t) && Enabled(t, op) && k in Apply(t, op).keys
    ensures ScopeIsCoherent(Apply(t, op), Apply(t, op).keys[k])
  {
    assert k in t.keys ==> ScopeIsCoherent(t, t.keys[k]);
  }

  lemma NamesStayUnique(t: Tables, op: Op)
    requires NamesUnique(t) && Enabled(t, op)
    ensures NamesUnique(Apply(t, op))
  {
  }

  lemma TokensStayUnique(t: Tables, op: Op)
    requires TokensUnique(t) && Enabled(t, op)
    ensures TokensUnique(Apply(t, op)) && t.issued <= Apply(t, op).issued
  {
  }

  lemma ApplyKeepsInv(t: Tables, op: Op)
    requires Inv(t) && Enabled(t, op)
    ensures Inv(Apply(t, op))
  {
    hide Apply;
    hide NamesUnique;
    hide TokensUnique;
    hide ScopeIsCoherent;
    forall k | k in Apply(t, op).keys
      ensures ScopeIsCoherent(Apply(t, op), Apply(t, op).keys[k])
    {
      NewScopesCohere(t, op, k);
    }
    NamesStayUnique(t, op);
    TokensStayUnique(t, op);
  }

  /** Any sequence of operations, from empty tables. */
  ghost predicate IsHistory(ts: seq<Tables>, ops: seq<Op>) {
    && |ts| == |ops| + 1 && ts[0] == Tables(map[], map[], {})
    && forall i | 0 <= i < |ops| :: Enabled(ts[i], ops[i]) && ts[i + 1] == Apply(ts[i], ops[i])
  }

  lemma {:induction false} InvHolds(ts: seq<Tables>, ops: seq<Op>, i: nat)
    requires IsHistory(ts, ops) && i < |ts|
    ensures Inv(ts[i])
  {
    if i > 0 {
      InvHolds(ts, ops, i - 1);
      ApplyKeepsInv(ts[i - 1], ops[i - 1]);
    }
  }

  // ---------------------------------------------------------------- what updates mean for access

  /** What a key reaches while it is active. */
  ghost predicate Reaches(t: Tables, key: Key, d: DepId) { HasAccess(t, key.(isActive := true), d) }

  /** A key that can authenticate nothing however active it is. */
  predicate Stranded(key: Key) { !key.allowAll && key.listed == {} }

  predicate NamesScope(patch: PatchAttrs) { patch.allowAll.Some? || patch.listed.Some? }

  /** An accepted update that names a scope field leaves a key that is allow-all or lists a
      deployment, and reaches what the caller named and nothing else. */
  lemma NamedScopeIsUsable(t: Tables, org: OrgId, id: KeyId, patch: PatchAttrs)
    requires Inv(t) && Found(t, org, id) && NamesScope(patch)
    requires OwnDeployments(t, org, patch.listed) && AcceptsScope(t.keys[id], patch)
    ensures
      var key := Apply(t, Patch(org, id, patch, true)).keys[id];
      && !Stranded(key)
      && (key.allowAll <==> EffectiveAllowAll(t.keys[id], patch))
      && forall d :: Reaches(t, key, d) <==>
           && d in t.deployments && t.deployments[d] == org
           && (key.allowAll || if patch.listed.Some? then d in patch.listed.value else d in t.keys[id].listed)
  {
    assert ScopeIsCoherent(t, t.keys[id]);
    if patch.listed.Some? && patch.listed.value != [] {
      assert patch.listed.value[0] in AsSet(patch.listed.value);
    }
  }

  /** An update that names neither scope field is always accepted, whatever state the key is in,
      and changes nothing but whether the key is active. */
  lemma UnnamedScopeIsKept(t: Tables, org: OrgId, id: KeyId, patch: PatchAttrs)
    requires Inv(t) && Found(t, org, id) && !NamesScope(patch)
    ensures
      var after := Apply(t, Patch(org, id, patch, true));
      && AcceptsScope(t.keys[id], patch)
      && id in after.keys
      && (forall d :: Reaches(after, after.keys[id], d) <==> Reaches(t, t.keys[id], d))
      && after.keys[id].isActive == Sent(patch.isActive, t.keys[id].isActive)
      && (forall k | k != id :: k in after.keys <==> k in t.keys)
      && (forall k | k in t.keys && k != id :: after.keys[k] == t.keys[k])
  {
    assert ScopeIsCoherent(t, t.keys[id]);
  }

  /** A refused update names a list for an allow-all key, or would leave the key stranded. */
  lemma RefusedOnlyForCause(key: Key, patch: PatchAttrs)
    requires key.allowAll ==> key.listed == {}
    ensures !AcceptsScope(key, patch) <==>
      NamesScope(patch) &&
        if EffectiveAllowAll(key, patch) then Sent(patch.listed, []) != [] else Stranded(Patched(key, patch))
  {
    if patch.listed.Some? && patch.listed.value != [] {
      assert patch.listed.value[0] in AsSet(patch.listed.value);
    }
  }

  /** Only the deletion of the last deployment a key lists can strand it. */
  lemma OnlyDeletionStrands(t: Tables, op: Op, k: KeyId)
    requires Inv(t) && Enabled(t, op)
    requires k in Apply(t, op).keys && Stranded(Apply(t, op).keys[k])
    ensures k in t.keys
    ensures !Stranded(t.keys[k]) ==> op.DropDeployment? && t.keys[k].listed == {op.d}
  {
    if op.Create? && AcceptsCreate(t, op.org, op.attrs, op.textOk) {
      CreatedIsUsable(t, op);
    }
    if op.Patch? && k in t.keys && !Stranded(t.keys[k]) {
      PatchDoesNotStrand(t, op, k);
    }
    if op.DropDeployment? && k in t.keys && !Stranded(t.keys[k]) {
      assert t.keys[k].listed - {op.d} == {};
      assert t.keys[k].listed == {op.d};
    }
  }

  lemma CreatedIsUsable(t: Tables, op: Op)
    requires op.Create? && AcceptsCreate(t, op.org, op.attrs, op.textOk)
    ensures !Stranded(Apply(t, op).keys[op.id])
  {
    var ds := Sent(op.attrs.listed, []);
    if ds != [] {
      assert ds[0] in AsSet(ds);
    }
  }

  lemma PatchDoesNotStrand(t: Tables, op: Op, k: KeyId)
    requires op.Patch? && k in t.keys && !Stranded(t.keys[k]) && Inv(t)
    ensures k in Apply(t, op).keys && !Stranded(Apply(t, op).keys[k])
  {
    assert ScopeIsCoherent(t, t.keys[k]);
    RefusedOnlyForCause(t.keys[k], op.patch);
  }

  /** Deleting a deployment takes it away from every key and takes nothing else away. */
  lemma DropTakesOneAway(t: Tables, d: DepId, k: KeyId, e: DepId)
    requires k in t.keys
    ensures
      var after := Apply(t, DropDeployment(d));
      k in after.keys && (HasAccess(after, after.keys[k], e) <==> e != d && HasAccess(t, t.keys[k], e))
  {
  }

  // ---------------------------------------------------------------- tokens

  /** The token of a key stands for exactly that key's access, never for another organization's. */
  lemma TokenStandsForKey(t: Tables, k: KeyId, d: DepId)
    requires Inv(t) && k in t.keys
    ensures Authenticates(t, t.keys[k].token, d) <==> HasAccess(t, t.keys[k], d)
    ensures Authenticates(t, t.keys[k].token, d) <==>
            && t.keys[k].isActive
            && d in t.deployments && t.deployments[d] == t.keys[k].org
            && (t.keys[k].allowAll || d in t.keys[k].listed)
    ensures Authenticates(t, t.keys[k].token, d) ==> t.deployments[d] == t.keys[k].org
  {
  }

  /** In every history the token of a key that is not active authenticates nothing. */
  lemma InactiveKeyIsRefused(ts: seq<Tables>, ops: seq<Op>, i: nat, k: KeyId, d: DepId)
    requires IsHistory(ts, ops) && i < |ts| && k in ts[i].keys && !ts[i].keys[k].isActive
    ensures !Authenticates(ts[i], ts[i].keys[k].token, d)
  {
    InvHolds(ts, ops, i);
    TokenStandsForKey(ts[i], k, d);
  }

  /** Whoever carries this token is key `id`, and it is not active. */
  ghost predicate Benched(t: Tables, id: KeyId, token: Token) {
    token in t.issued && forall k | k in t.keys && t.keys[k].token == token :: k == id && !t.keys[k].isActive
  }

  /** An update that makes the key active again. */
  predicate Reactivates(op: Op, id: KeyId) { op.Patch? && op.id == id && op.patch.isActive == Some(true) }

  lemma BenchedStaysBenched(t: Tables, op: Op, id: KeyId, token: Token)
    requires Enabled(t, op) && Benched(t, id, token) && !Reactivates(op, id)
    ensures Benched(Apply(t, op), id, token)
  {
  }

  lemma {:induction false} BenchedHolds(ts: seq<Tables>, ops: seq<Op>, i: nat, j: nat, id: KeyId, token: Token)
    requires IsHistory(ts, ops) && i <= j < |ts| && Benched(ts[i], id, token)
    requires forall k | i <= k < j :: !Reactivates(ops[k], id)
    ensures Benched(ts[j], id, token)
    decreases j
  {
    if i < j {
      BenchedHolds(ts, ops, i, j - 1, id, token);
      BenchedStaysBenched(ts[j - 1], ops[j - 1], id, token);
    }
  }

  /** Once an accepted update has made a key inactive, its token authenticates nothing, whatever
      happens, until an update makes the key active again. */
  lemma DeactivationHolds(ts: seq<Tables>, ops: seq<Op>, i: nat, j: nat, org: OrgId, id: KeyId, patch: PatchAttrs,
                          d: DepId)
    requires IsHistory(ts, ops) && i < j < |ts| && ops[i] == Patch(org, id, patch, true)
    requires id in ts[i].keys && ts[i].keys[id].org == org && patch.isActive == Some(false)
    requires OwnDeployments(ts[i], org, patch.listed) && AcceptsScope(ts[i].keys[id], patch)
    requires forall k | i < k < j :: !Reactivates(ops[k], id)
    ensures !Authenticates(ts[j], ts[i].keys[id].token, d)
  {
    InvHolds(ts, ops, i);
    assert ts[i + 1] == Apply(ts[i], ops[i]);
    BenchedHolds(ts, ops, i + 1, j, id, ts[i].keys[id].token);
  }

  /** No key carries this token, and none ever will. */
  ghost predicate Retired(t: Tables, token: Token) {
    token in t.issued && forall k | k in t.keys :: t.keys[k].token != token
  }

  lemma RetiredStaysRetired(t: Tables, op: Op, token: Token)
    requires TokensUnique(t) && Enabled(t, op) && Retired(t, token)
    ensures Retired(Apply(t, op), token)
  {
  }

  lemma {:induction false} RetiredForever(ts: seq<Tables>, ops: seq<Op>, i: nat, j: nat, token: Token)
    requires IsHistory(ts, ops) && i <= j < |ts| && Retired(ts[i], token)
    ensures Retired(ts[j], token)
    decreases j
  {
    if i < j {
      RetiredForever(ts, ops, i, j - 1, token);
      InvHolds(ts, ops, j - 1);
      RetiredStaysRetired(ts[j - 1], ops[j - 1], token);
    }
  }

  /** Rotation moves the key's access to the new token; the old one never authenticates anything
      again. */
  lemma RotationRetiresToken(ts: seq<Tables>, ops: seq<Op>, i: nat, j: nat)
    requires IsHistory(ts, ops) && i < j < |ts| && ops[i].Rotate? && Found(ts[i], ops[i].org, ops[i].id)
    ensures forall d :: Authenticates(ts[i + 1], ops[i].token, d) <==>
      Authenticates(ts[i], ts[i].keys[ops[i].id].token, d)
    ensures forall d :: !Authenticates(ts[j], ts[i].keys[ops[i].id].token, d)
  {
    var t, u, id := ts[i], ts[i + 1], ops[i].id;
    InvHolds(ts, ops, i);
    InvHolds(ts, ops, i + 1);
    assert u == Apply(t, ops[i]);
    forall d
      ensures Authenticates(u, ops[i].token, d) <==> Authenticates(t, t.keys[id].token, d)
    {
      TokenStandsForKey(t, id, d);
      TokenStandsForKey(u, id, d);
    }
    assert Retired(u, t.keys[id].token);
    RetiredForever(ts, ops, i + 1, j, t.keys[id].token);
  }

  /** Deleting a key of the caller's organization ends its token for good and touches no other key;
      the identifier of another organization's key deletes nothing. */
  lemma DeletionRetiresToken(ts: seq<Tables>, ops: seq<Op>, i: nat, j: nat)
    requires IsHistory(ts, ops) && i < j < |ts| && ops[i].DropKey?
    requires ops[i].id in ts[i].keys
    ensures ts[i].keys[ops[i].id].org != ops[i].org ==> ts[i + 1] == ts[i]
    ensures ts[i].keys[ops[i].id].org == ops[i].org ==>
              && ts[i + 1].keys.Keys == ts[i].keys.Keys - {ops[i].id}
              && (forall k | k in ts[i + 1].keys :: ts[i + 1].keys[k] == ts[i].keys[k])
              && ts[i + 1].deployments == ts[i].deployments
              && forall d :: !Authenticates(ts[j], ts[i].keys[ops[i].id].token, d)
  {
    var t, u, id := ts[i], ts[i + 1], ops[i].id;
    assert u == Apply(t, ops[i]);
    if t.keys[id].org == ops[i].org {
      InvHolds(ts, ops, i);
      assert Retired(u, t.keys[id].token);
      RetiredForever(ts, ops, i + 1, j, t.keys[id].token);
    }
  }
}
