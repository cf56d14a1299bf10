/** The serializers and views that carry the key operations out on the tables. */
module GlobalKeys {
  import opened Options
  import opened KeyScope

  class GlobalApiDeploymentKeys {
    var deployments: map<DepId, OrgId>
    var keys: map<KeyId, Key>
    ghost var issued: set<Token>

    ghost function Now(): Tables
      reads this
    {
      Tables(deployments, keys, issued)
    }

    ghost predicate Valid()
      reads this
    {
      Inv(Now())
    }

    constructor ()
      ensures Valid() && Now() == Tables(map[], map[], {})
    {
      deployments, keys, issued := map[], map[], {};
    }

    /** The related field's queryset is the caller's organization's deployments. */
    method CheckDeployments(org: OrgId, ds: Option<seq<DepId>>) returns (ok: bool)
      ensures ok <==> OwnDeployments(Now(), org, ds)
      ensures ok <==> ds.None? || forall d | d in ds.value :: d in deployments && deployments[d] == org
    {
      if ds.None? {
        return true;
      }
      for i := 0 to |ds.value|
        invariant forall j | 0 <= j < i :: ds.value[j] in deployments && deployments[ds.value[j]] == org
      {
        if ds.value[i] !in deployments || deployments[ds.value[i]] != org {
          return false;
        }
      }
      return true;
    }

    /** Create: the pair of scope fields must be coherent, nothing is normalised. */
    method ValidateCreate(attrs: CreateAttrs) returns (r: Result<CreateAttrs>)
      ensures r.Ok? ==> r.value == attrs
      ensures r.Ok? <==> (Sent(attrs.allowAll, false) <==> Sent(attrs.listed, []) == [])
      ensures attrs.allowAll == Some(true) ==> (r.Ok? <==> attrs.listed.None? || attrs.listed.value == [])
      ensures attrs.allowAll != Some(true) ==> (r.Ok? <==> attrs.listed.Some? && attrs.listed.value != [])
      ensures r.Err? ==> r.error == if Sent(attrs.allowAll, false) then ListWithAllowAll else NothingSelected
    {
      var allowAll := Sent(attrs.allowAll, false);
      var listed := Sent(attrs.listed, []);
      if allowAll && listed != [] {
        return Err(ListWithAllowAll);
      }
      if !allowAll && listed == [] {
        return Err(NothingSelected);
      }
      return Ok(attrs);
    }

    /** Update: validates the scope the key is to have; clears the list of a key that is to be
        allow-all, and leaves an untouched scope alone. */
    method ValidateUpdate(key: Key, patch: PatchAttrs) returns (r: Result<PatchAttrs>)
      ensures r.Ok? <==> AcceptsScope(key, patch)
      ensures r.Ok? ==> r.value == patch.(listed := if EffectiveAllowAll(key, patch) then Some([]) else patch.listed)
      ensures r.Err? ==> r.error == if EffectiveAllowAll(key, patch) then ListWithAllowAll else NothingSelected
    {
      var attrs := patch;
      var allowAll := if attrs.allowAll.Some? then attrs.allowAll.value else key.allowAll;
      if allowAll {
        if attrs.listed.Some? && attrs.listed.value != [] {
          return Err(ListWithAllowAll);
        }
        attrs := attrs.(listed := Some([]));
        return Ok(attrs);
      }
      if attrs.listed.Some? {
        if attrs.listed.value == [] {
          return Err(NothingSelected);
        }
        return Ok(attrs);
      }
      if attrs.allowAll.Some? && key.listed == {} {
        return Err(NothingSelected);
      }
      return Ok(attrs);
    }

    /** Writes the validated fields, the list last and only if there is one. */
    method Update(id: KeyId, attrs: PatchAttrs)
      requires id in keys
      modifies this`keys
      ensures keys == old(keys)[id := old(keys[id]).(
        isActive := Sent(attrs.isActive, old(keys[id]).isActive),
        allowAll := Sent(attrs.allowAll, old(keys[id]).allowAll),
        listed := if attrs.listed.Some? then AsSet(attrs.listed.value) else old(keys[id]).listed)]
    {
      if attrs.isActive.Some? {
        keys := keys[id := keys[id].(isActive := attrs.isActive.value)];
      }
      if attrs.allowAll.Some? {
        keys := keys[id := keys[id].(allowAll := attrs.allowAll.value)];
      }
      if attrs.listed.Some? {
        keys := keys[id := keys[id].(listed := AsSet(attrs.listed.value))];
      }
    }

    method CreateKey(org: OrgId, id: KeyId, token: Token, attrs: CreateAttrs, textOk: bool) returns (r: Result<KeyId>)
      requires Valid() && Enabled(Now(), Create(org, id, token, attrs, textOk))
      modifies this
      ensures Valid() && Now() == Apply(old(Now()), Create(org, id, token, attrs, textOk))
      ensures r.Ok? <==> AcceptsCreate(old(Now()), org, attrs, textOk)
      ensures r.Ok? ==> r.value == id && !Stranded(keys[id])
      ensures r.Ok? ==>
        && textOk && (forall k | k in old(keys) :: old(keys)[k].org != org || old(keys)[k].name != attrs.name)
        && keys == old(keys)[id := keys[id]]
        && keys[id].org == org && keys[id].name == attrs.name && keys[id].token == token && keys[id].isActive
        && (keys[id].allowAll <==> attrs.allowAll == Some(true))
        && (forall d :: d in keys[id].listed <==> attrs.listed.Some? && d in attrs.listed.value)
      ensures r.Err? ==> keys == old(keys)
    {
      hide Inv;
      ghost var before, op := Now(), Create(org, id, token, attrs, textOk);
      ApplyKeepsInv(before, op);
      var own := CheckDeployments(org, attrs.listed);
      if !textOk {
        return Err(BadText);
      }
      if exists k | k in keys :: keys[k].org == org && keys[k].name == attrs.name {
        return Err(NameTaken);
      }
      if !own {
        return Err(ForeignDeployment);
      }
      var validated := ValidateCreate(attrs);
      if validated.Err? {
        return Err(validated.error);
      }
      CreatedIsUsable(before, op);
      keys := keys[id := Key(org, attrs.name, token, true, Sent(attrs.allowAll, false), AsSet(Sent(attrs.listed, [])))];
      issued := issued + {token};
      return Ok(id);
    }

    method PartialUpdate(org: OrgId, id: KeyId, patch: PatchAttrs, textOk: bool) returns (r: Result<KeyId>)
      requires Valid()
      modifies this
      ensures Valid() && Now() == Apply(old(Now()), Patch(org, id, patch, textOk))
      ensures r.Ok? <==>
        Found(old(Now()), org, id) && textOk && OwnDeployments(old(Now()), org, patch.listed) &&
          AcceptsScope(old(keys)[id], patch)
      ensures r.Ok? && NamesScope(patch) ==> id in keys && !Stranded(keys[id])
      ensures r.Err? ==> keys == old(keys)
      ensures r.Ok? ==>
        && id in old(keys) && keys == old(keys)[id := keys[id]]
        && var was, key := old(keys)[id], keys[id];
        && was.org == org == key.org && key.name == was.name && key.token == was.token
        && key.isActive == (if patch.isActive.Some? then patch.isActive.value else was.isActive)
        && key.allowAll == (if patch.allowAll.Some? then patch.allowAll.value else was.allowAll)
        && (key.allowAll ==> key.listed == {} && (patch.listed.Some? ==> patch.listed.value == []))
        && (!key.allowAll && patch.listed.Some? ==>
              patch.listed.value != [] && forall d :: d in key.listed <==> d in patch.listed.value)
        && (!key.allowAll && patch.listed.None? ==>
              key.listed == was.listed && (patch.allowAll.Some? ==> was.listed != {}))
    {
      hide Inv;
      ghost var before, op := Now(), Patch(org, id, patch, textOk);
      ApplyKeepsInv(before, op);
      if id !in keys || keys[id].org != org {
        return Err(NotFound);
      }
      var own := CheckDeployments(org, patch.listed);
      if !textOk {
        return Err(BadText);
      }
      if !own {
        return Err(ForeignDeployment);
      }
      var validated := ValidateUpdate(keys[id], patch);
      if validated.Err? {
        return Err(validated.error);
      }
      assert AsSet([]) == {};
      Update(id, validated.value);
      if NamesScope(patch) {
        NamedScopeIsUsable(before, org, id, patch);
      }
      return Ok(id);
    }

    method RotateKey(org: OrgId, id: KeyId, token: Token) returns (r: Result<Token>)
      requires Valid() && Enabled(Now(), Rotate(org, id, token))
      modifies this
      ensures Valid() && Now() == Apply(old(Now()), Rotate(org, id, token))
      ensures r == if Found(old(Now()), org, id) then Ok(token) else Err(NotFound)
      ensures r.Ok? <==> id in old(keys) && old(keys)[id].org == org
      ensures keys == if r.Ok? then old(keys)[id := old(keys)[id].(token := token)] else old(keys)
    {
      hide Inv;
      ApplyKeepsInv(Now(), Rotate(org, id, token));
      if id !in keys || keys[id].org != org {
        return Err(NotFound);
      }
      keys := keys[id := keys[id].(token := token)];
      issued := issued + {token};
      return Ok(token);
    }

    /** Looks the key up by token alone; the organization check is the key's own. */
    method Validate(token: Token, d: DepId) returns (ok: bool)
      requires Valid() && d in deployments
      ensures ok <==> Authenticates(Now(), token, d)
      ensures ok <==> exists k | k in keys ::
        && keys[k].token == token && keys[k].isActive && keys[k].org == deployments[d]
        && (keys[k].allowAll || d in keys[k].listed)
    {
      if k :| k in keys && keys[k].token == token && keys[k].isActive {
        TokenStandsForKey(Now(), k, d);
        ok := HasAccess(Tables(deployments, keys, {}), keys[k], d);
      } else {
        ok := false;
      }
    }
  }
}
