/** `GetOrgSymKeys` of pkg/common/common.go: resolve the chain master key -> user symmetric key ->
    RSA private key -> every organization key of the user. The two database reads it makes are its
    inputs, as the results gorm returned. */
module KeyHierarchy {
  import opened Base
  import opened Crypto
  import opened PkcsKdf
  import opened Pkcs
  import opened Store

  /** The organizations the memberships belong to. */
  function OrgsOf(ms: seq<MembershipRow>): set<Uuid> {
    set m | m in ms :: m.orgUuid
  }

  /** The organization keys of the memberships, in order, under one private key; the first membership
      whose Akey does not decrypt fails the whole result, and a later membership of the same
      organization overwrites an earlier one. */
  function CollectOrgKeys(c: Primitives, pri: RsaPrivateKey, ms: seq<MembershipRow>): (r: Result<map<Uuid, Bytes>>)
    ensures r.Ok? ==> r.value.Keys == OrgsOf(ms)
  {
    if |ms| == 0 then Ok(map[])
    else
      match CollectOrgKeys(c, pri, ms[..|ms| - 1])
      case Err(e) => Err(e)
      case Ok(acc) =>
        var last := ms[|ms| - 1];
        match BWPKDecrypt(c, last.akey, pri)
        case Err(e) => Err(Wrap(DecryptOrgAkey, e))
        case Ok(orgSymKey) =>
          assert ms == ms[..|ms| - 1] + [last];
          Ok(acc[last.orgUuid := orgSymKey])
  }

  /** The private key the user row unwraps to, or the error of the first stage that fails. */
  function UnwrapPrivateKey(c: Primitives, email: GoString, password: GoString, user: UserRow): (r: Result<RsaPrivateKey>)
    ensures var a := BWSymDecrypt(c, DeriveMasterKey(c, email, password), user.akey);
            a.Err? ==> r == Err(Wrap(DecryptUserAkey, a.error))
    ensures var a := BWSymDecrypt(c, DeriveMasterKey(c, email, password), user.akey);
            a.Ok? && BWSymDecrypt(c, a.value, user.privateKey).Err? ==>
              r == Err(Wrap(DecryptPrivateKey, BWSymDecrypt(c, a.value, user.privateKey).error))
    ensures var a := BWSymDecrypt(c, DeriveMasterKey(c, email, password), user.akey);
            a.Ok? && BWSymDecrypt(c, a.value, user.privateKey).Ok? ==>
              var parsed := c.parsePkcs8(BWSymDecrypt(c, a.value, user.privateKey).value);
              r == if parsed.None? then Err(Wrapped(ParsePrivateKey, InvalidPrivateKey)) else Ok(parsed.value)
    ensures r.Ok? ==> MacValid(c, DeriveMasterKey(c, email, password), user.akey)
    ensures r.Err? ==> !r.error.Panic? ==> r.error.Wrapped?
  {
    var masterKey := DeriveMasterKey(c, email, password);
    match BWSymDecrypt(c, masterKey, user.akey)
    case Err(e) => Err(Wrap(DecryptUserAkey, e))
    case Ok(symKey) =>
      match BWSymDecrypt(c, symKey, user.privateKey)
      case Err(e) => Err(Wrap(DecryptPrivateKey, e))
      case Ok(privateKey) =>
        match c.parsePkcs8(privateKey)
        case None => Err(Wrapped(ParsePrivateKey, InvalidPrivateKey))
        case Some(pri) => Ok(pri)
  }

  /** What `GetOrgSymKeys` returns for the outcome of the user lookup and of the membership listing. */
  function ResolveOrgKeys(c: Primitives, email: GoString, password: GoString,
                          user: Result<UserRow>, memberships: Result<seq<MembershipRow>>): (r: Result<map<Uuid, Bytes>>)
    ensures user.Err? ==> r == Err(user.error)
    ensures user.Ok? && memberships.Err? ==> r == Err(memberships.error)
    ensures user.Ok? && memberships.Ok? && UnwrapPrivateKey(c, email, password, user.value).Err? ==>
              r == Err(UnwrapPrivateKey(c, email, password, user.value).error)
    ensures r.Ok? ==> r.value.Keys == OrgsOf(memberships.value)
  {
    match user
    case Err(e) => Err(e)
    case Ok(u) =>
      match memberships
      case Err(e) => Err(e)
      case Ok(ms) =>
        match UnwrapPrivateKey(c, email, password, u)
        case Err(e) => Err(e)
        case Ok(pri) => CollectOrgKeys(c, pri, ms)
  }

  /** `GetOrgSymKeys`. */
  method GetOrgSymKeys(c: Primitives, userEmail: GoString, userMasterPwd: GoString,
                       user: Result<UserRow>, userOrgs: Result<seq<MembershipRow>>) returns (r: Result<map<Uuid, Bytes>>)
    ensures r == ResolveOrgKeys(c, userEmail, userMasterPwd, user, userOrgs)
  {
    if user.Err? {
      return Err(user.error);
    }
    if userOrgs.Err? {
      return Err(userOrgs.error);
    }
    var priInf := UnwrapPrivateKey(c, userEmail, userMasterPwd, user.value);
    if priInf.Err? {
      return Err(priInf.error);
    }
    r := DecryptOrgKeys(c, priInf.value, userOrgs.value);
  }

  /** The loop of `GetOrgSymKeys` that fills the result map, one membership at a time. */
  method DecryptOrgKeys(c: Primitives, priInf: RsaPrivateKey, userOrgs: seq<MembershipRow>) returns (r: Result<map<Uuid, Bytes>>)
    ensures r == CollectOrgKeys(c, priInf, userOrgs)
  {
    var result: map<Uuid, Bytes> := map[];
    for i := 0 to |userOrgs|
      invariant CollectOrgKeys(c, priInf, userOrgs[..i]) == Ok(result)
    {
      assert userOrgs[..i + 1][..i] == userOrgs[..i];
      var orgSymKey := BWPKDecrypt(c, userOrgs[i].akey, priInf);
      if orgSymKey.Err? {
        CollectErrorStays(c, priInf, userOrgs, i + 1);
        return Err(Wrap(DecryptOrgAkey, orgSymKey.error));
      }
      result := result[userOrgs[i].orgUuid := orgSymKey.value];
    }
    assert userOrgs[..|userOrgs|] == userOrgs;
    return Ok(result);
  }

  /** Once a prefix of the memberships fails, the whole sequence fails with the same error. */
  lemma {:induction false} CollectErrorStays(c: Primitives, pri: RsaPrivateKey, ms: seq<MembershipRow>, k: nat)
    requires k <= |ms| && CollectOrgKeys(c, pri, ms[..k]).Err?
    ensures CollectOrgKeys(c, pri, ms) == CollectOrgKeys(c, pri, ms[..k])
  {
    if k < |ms| {
      var init := ms[..|ms| - 1];
      assert init[..k] == ms[..k];
      CollectErrorStays(c, pri, init, k);
    } else {
      assert ms[..k] == ms;
    }
  }

  /** The index of the last membership of organization `org`. */
  predicate IsLastOf(ms: seq<MembershipRow>, org: Uuid, k: nat) {
    k < |ms| && ms[k].orgUuid == org && forall j :: k < j < |ms| ==> ms[j].orgUuid != org
  }

  /** On success every organization maps to the decryption of its last membership's Akey. */
  lemma {:induction false} CollectLastWins(c: Primitives, pri: RsaPrivateKey, ms: seq<MembershipRow>, k: nat)
    requires CollectOrgKeys(c, pri, ms).Ok?
    requires k < |ms| && IsLastOf(ms, ms[k].orgUuid, k)
    ensures BWPKDecrypt(c, ms[k].akey, pri) == Ok(CollectOrgKeys(c, pri, ms).value[ms[k].orgUuid])
  {
    var init := ms[..|ms| - 1];
    if k < |ms| - 1 {
      forall j | k < j < |init| ensures init[j].orgUuid != ms[k].orgUuid {
        assert init[j] == ms[j];
      }
      assert init[k] == ms[k];
      CollectLastWins(c, pri, init, k);
    }
  }

  /** Fail fast: the result is an error exactly when some membership's Akey does not decrypt, and then
      it is the wrapped error of the first such membership. */
  lemma {:induction false} CollectFailsFast(c: Primitives, pri: RsaPrivateKey, ms: seq<MembershipRow>)
    ensures CollectOrgKeys(c, pri, ms).Err? <==> exists i :: 0 <= i < |ms| && BWPKDecrypt(c, ms[i].akey, pri).Err?
    ensures CollectOrgKeys(c, pri, ms).Err? ==>
              exists i :: 0 <= i < |ms| && BWPKDecrypt(c, ms[i].akey, pri).Err?
                && (forall j :: 0 <= j < i ==> BWPKDecrypt(c, ms[j].akey, pri).Ok?)
                && CollectOrgKeys(c, pri, ms).error == Wrap(DecryptOrgAkey, BWPKDecrypt(c, ms[i].akey, pri).error)
  {
    if |ms| > 0 {
      var init := ms[..|ms| - 1];
      CollectFailsFast(c, pri, init);
      forall j | 0 <= j < |init| ensures init[j] == ms[j] { }
    }
  }

  /** Every membership's Akey decrypts, under `pri`, to the key `keys` holds for its organization. */
  predicate AllUnwrapTo(c: Primitives, pri: RsaPrivateKey, ms: seq<MembershipRow>, keys: map<Uuid, Bytes>) {
    forall i :: 0 <= i < |ms| ==> ms[i].orgUuid in keys && BWPKDecrypt(c, ms[i].akey, pri) == Ok(keys[ms[i].orgUuid])
  }

  /** When every membership's Akey decrypts to the key `keys` holds for its organization, the result
      succeeds and agrees with `keys` on every organization of the memberships. */
  lemma {:induction false} CollectAgrees(c: Primitives, pri: RsaPrivateKey, ms: seq<MembershipRow>, keys: map<Uuid, Bytes>)
    requires AllUnwrapTo(c, pri, ms, keys)
    ensures CollectOrgKeys(c, pri, ms).Ok?
    ensures forall o :: o in CollectOrgKeys(c, pri, ms).value ==> CollectOrgKeys(c, pri, ms).value[o] == keys[o]
  {
    if |ms| > 0 {
      var init := ms[..|ms| - 1];
      forall i | 0 <= i < |init| ensures init[i] == ms[i] { }
      CollectAgrees(c, pri, init, keys);
    }
  }

  /** Once the user row unwraps to `pri` and every membership unwraps to the key `keys` holds for its
      organization, the lookup yields `keys` restricted to the user's organizations. */
  lemma {:induction false} ResolveAgrees(c: Primitives, email: GoString, password: GoString, u: UserRow,
                                         ms: seq<MembershipRow>, pri: RsaPrivateKey, keys: map<Uuid, Bytes>)
    requires UnwrapPrivateKey(c, email, password, u) == Ok(pri)
    requires AllUnwrapTo(c, pri, ms, keys)
    ensures ResolveOrgKeys(c, email, password, Ok(u), Ok(ms)) == Ok(map o | o in OrgsOf(ms) :: keys[o])
  {
    CollectAgrees(c, pri, ms, keys);
    OrgsHaveKeys(c, pri, ms, keys);
    Restricted(CollectOrgKeys(c, pri, ms).value, keys, OrgsOf(ms));
  }

  lemma OrgsHaveKeys(c: Primitives, pri: RsaPrivateKey, ms: seq<MembershipRow>, keys: map<Uuid, Bytes>)
    requires AllUnwrapTo(c, pri, ms, keys)
    ensures OrgsOf(ms) <= keys.Keys
  {
    forall o | o in OrgsOf(ms) ensures o in keys {
      var m :| m in ms && m.orgUuid == o;
      var i :| 0 <= i < |ms| && ms[i] == m;
    }
  }

  /** A map with domain `dom` that agrees with `keys` on it is `keys` restricted to `dom`. */
  lemma Restricted(got: map<Uuid, Bytes>, keys: map<Uuid, Bytes>, dom: set<Uuid>)
    requires got.Keys == dom && dom <= keys.Keys
    requires forall o :: o in got ==> got[o] == keys[o]
    ensures got == map o | o in dom :: keys[o]
  {
  }

  /** With no membership the result is the empty map, yet both unwrapping steps must still succeed. */
  lemma NoMemberships(c: Primitives, email: GoString, password: GoString, u: UserRow)
    ensures ResolveOrgKeys(c, email, password, Ok(u), Ok([])).Ok? <==> UnwrapPrivateKey(c, email, password, u).Ok?
    ensures ResolveOrgKeys(c, email, password, Ok(u), Ok([])).Ok? ==> ResolveOrgKeys(c, email, password, Ok(u), Ok([])).value == map[]
  {
  }

  /** A wrong password stops at the first unwrap: when the user Akey's MAC does not check out under
      the derived master key, the result is that MAC error and no later stage is reached. */
  lemma WrongPasswordStopsAtUserKey(c: Primitives, email: GoString, password: GoString, u: UserRow,
                                    ms: Result<seq<MembershipRow>>)
    requires ms.Ok?
    requires IsBWSymFormat(u.akey)
    requires var f := ParseSym(u.akey).value; DecodeAll(c, [f.iv, f.ciphertext, f.mac]).Some?
    requires !MacValid(c, DeriveMasterKey(c, email, password), u.akey)
    ensures ResolveOrgKeys(c, email, password, Ok(u), ms)
            in {Err(Wrapped(DecryptUserAkey, MacLengthMismatch)), Err(Wrapped(DecryptUserAkey, MacMismatch))}
  {
    MacBeforeDecrypt(c, DeriveMasterKey(c, email, password), u.akey);
  }
}
