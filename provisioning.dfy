/** User provisioning of pkg/mgr: `createUser` (pkg/mgr/create_user.go) mints a user with a new key
    hierarchy and one membership per requested organization; `resetUserPassword`
    (pkg/mgr/reset_password.go) replaces a user's credentials and key pair and re-wraps the
    organization key into the user's memberships. Both write inside one transaction. */
module Provisioning {
  import opened Base
  import opened Crypto
  import opened PkcsKdf
  import opened Pkcs
  import opened Store
  import opened KeyHierarchy

  const ROLE_OWNER: int := 0
  const ROLE_ADMIN: int := 1
  const ROLE_USER: int := 2
  const ROLE_CUSTOM: int := 3

  /** Status of a membership created by the manager (confirmed). */
  const STATUS_CONFIRMED: int := 2

  /** "[]", the JSON empty list stored in `EquivalentDomains` and `ExcludedGlobals`. */
  const EMPTY_JSON_LIST: GoString := [91, 93]

  /** What one call draws from `crypto/rand`, `GenRSAKeyPair` and `uuid.NewString`. */
  datatype Fresh = Fresh(
    salt: Bytes,            // RandBytes(64)
    symKey: Bytes,          // RandBytes(64)
    akeyIv: Bytes,          // the IV drawn by BWSymEncrypt(userMasterKey, symKey)
    privateKeyIv: Bytes,    // the IV drawn by BWSymEncrypt(symKey, privateKey)
    spki: Bytes,            // GenRSAKeyPair: public key, SPKI
    pkcs8: Bytes,           // GenRSAKeyPair: private key, PKCS#8
    uid: Uuid,              // the new user's uuid
    securityStamp: Uuid)

  /** The lengths `RandBytes` guarantees. */
  predicate WellFormed(f: Fresh) {
    |f.salt| == 64 && |f.symKey| == 64 && |f.akeyIv| == IV_LEN && |f.privateKeyIv| == IV_LEN
  }

  /** The credential columns derived from an email, a master password and fresh material. */
  function Credentials(c: Primitives, email: GoString, masterPassword: GoString, f: Fresh): (k: UserCredentials)
    requires WellFormed(f)
  {
    var userMasterKey := DeriveMasterKey(c, email, masterPassword);
    var passwordHash := DerivePasswordHash(c, userMasterKey, masterPassword);
    UserCredentials(
      HashPasswordHash(c, passwordHash, f.salt),
      f.salt,
      BWSymEncrypt(c, userMasterKey, f.akeyIv, f.symKey),
      c.base64Encode(f.spki),
      BWSymEncrypt(c, f.symKey, f.privateKeyIv, f.pkcs8))
  }

  /** The user row `createUser` inserts. */
  function NewUserRow(c: Primitives, email: GoString, name: GoString, masterPassword: GoString, f: Fresh): (u: UserRow)
    requires WellFormed(f)
  {
    var k := Credentials(c, email, masterPassword, f);
    UserRow(f.uid, name, email, k.passwordHash, ITERATIONS, k.salt, k.akey, k.publicKey, k.privateKey,
            EMPTY_JSON_LIST, EMPTY_JSON_LIST, f.securityStamp, ITERATIONS)
  }

  /** The membership row `createUser` inserts for one organization. */
  function NewMembershipRow(c: Primitives, uid: Uuid, pub: RsaPublicKey, org: Uuid, role: int,
                            orgSymKey: Bytes, rowUuid: Uuid): (m: MembershipRow)
  {
    MembershipRow(rowUuid, uid, org, BWPKEncrypt(c, orgSymKey, pub), false, STATUS_CONFIRMED, role)
  }

  /** The membership rows `createUser` writes, one per organization asked for. */
  function MembershipRows(c: Primitives, uid: Uuid, pub: RsaPublicKey, org2role: map<Uuid, int>,
                          orgSymKeys: map<Uuid, Bytes>, rowUuids: map<Uuid, Uuid>): (rows: map<Uuid, MembershipRow>)
    requires org2role.Keys <= orgSymKeys.Keys && org2role.Keys <= rowUuids.Keys
    ensures rows.Keys == org2role.Keys
  {
    map o | o in org2role :: NewMembershipRow(c, uid, pub, o, org2role[o], orgSymKeys[o], rowUuids[o])
  }

  /** The rows of `rows` for the keys of `order`, in that order. */
  function Select(rows: map<Uuid, MembershipRow>, order: seq<Uuid>): (ms: seq<MembershipRow>)
    requires forall o :: o in order ==> o in rows
    ensures |ms| == |order|
  {
    if |order| == 0 then [] else Select(rows, order[..|order| - 1]) + [rows[order[|order| - 1]]]
  }

  /** Row i of the selection is the row filed under the i-th key. */
  lemma {:induction false} SelectAt(rows: map<Uuid, MembershipRow>, order: seq<Uuid>)
    requires forall o :: o in order ==> o in rows
    ensures forall i :: 0 <= i < |order| ==> Select(rows, order)[i] == rows[order[i]]
  {
    if |order| > 0 {
      var init := order[..|order| - 1];
      SelectAt(rows, init);
      forall i | 0 <= i < |init| ensures init[i] == order[i] { }
    }
  }

  /** Every membership row written is the user's, in its organization, confirmed, without access to
      all collections, with the requested role, and its Akey is the organization key under the new
      public key. */
  lemma MembershipRowsShape(c: Primitives, uid: Uuid, pub: RsaPublicKey, org2role: map<Uuid, int>,
                            orgSymKeys: map<Uuid, Bytes>, rowUuids: map<Uuid, Uuid>, o: Uuid)
    requires org2role.Keys <= orgSymKeys.Keys && org2role.Keys <= rowUuids.Keys && o in org2role
    ensures var m := MembershipRows(c, uid, pub, org2role, orgSymKeys, rowUuids)[o];
            && m.uuid == rowUuids[o] && m.userUuid == uid && m.orgUuid == o
            && m.akey == BWPKEncrypt(c, orgSymKeys[o], pub)
            && !m.accessAll && m.status == STATUS_CONFIRMED && m.atype == org2role[o]
  {
  }

  /** The credential columns keep the promises of the key hierarchy: the user Akey unwraps to the
      symmetric key under the master key, the private key envelope unwraps to the PKCS#8 key under the
      symmetric key, the public key is stored as base64 of the SPKI, and the verifier is
      `HashPasswordHash` of the transport hash under the stored salt. */
  lemma CredentialsUnwrap(c: Primitives, email: GoString, masterPassword: GoString, f: Fresh)
    requires Axioms(c) && WellFormed(f)
    ensures var k := Credentials(c, email, masterPassword, f);
            var userMasterKey := DeriveMasterKey(c, email, masterPassword);
            && BWSymDecrypt(c, userMasterKey, k.akey) == Ok(f.symKey)
            && BWSymDecrypt(c, f.symKey, k.privateKey) == Ok(f.pkcs8)
            && c.base64Decode(k.publicKey) == Some(f.spki)
            && k.salt == f.salt
            && k.passwordHash == HashPasswordHash(c, DerivePasswordHash(c, userMasterKey, masterPassword), k.salt)
  {
    var userMasterKey := DeriveMasterKey(c, email, masterPassword);
    SymRoundTrip(c, userMasterKey, f.akeyIv, f.symKey);
    SymRoundTrip(c, f.symKey, f.privateKeyIv, f.pkcs8);
  }

  /** A user row carrying these credentials with a genuine key pair unwraps, with the same email and
      password, to the private key of that pair. */
  lemma CredentialsResolve(c: Primitives, email: GoString, masterPassword: GoString, f: Fresh, u: UserRow)
    requires Axioms(c) && WellFormed(f) && IsKeyPair(c, f.spki, f.pkcs8)
    requires u.akey == Credentials(c, email, masterPassword, f).akey
    requires u.privateKey == Credentials(c, email, masterPassword, f).privateKey
    ensures UnwrapPrivateKey(c, email, masterPassword, u) == Ok(c.parsePkcs8(f.pkcs8).value)
    ensures c.parsePkcs8(f.pkcs8).value.pub == c.parsePkix(f.spki).value
  {
    CredentialsUnwrap(c, email, masterPassword, f);
  }

  /** The user row of `createUser` holds the derived credentials, the drawn uuid and security stamp,
      the `ITERATIONS` count in both iteration columns and "[]" in both JSON columns. */
  lemma NewUserRowShape(c: Primitives, email: GoString, name: GoString, masterPassword: GoString, f: Fresh)
    requires WellFormed(f)
    ensures var u := NewUserRow(c, email, name, masterPassword, f);
            && u == WithCredentials(u, Credentials(c, email, masterPassword, f))
            && u.uuid == f.uid && u.name == name && u.email == email && u.securityStamp == f.securityStamp
            && u.passwordIterations == ITERATIONS && u.clientKdfIter == ITERATIONS
            && u.equivalentDomains == EMPTY_JSON_LIST && u.excludedGlobals == EMPTY_JSON_LIST
  {
  }

  /** End to end: what `createUser` writes resolves, through `GetOrgSymKeys` with the same email and
      password, to exactly the organization keys it was asked to grant, whatever order the
      memberships were written in. */
  lemma CreatedUserResolves(c: Primitives, email: GoString, name: GoString, masterPassword: GoString,
                            f: Fresh, org2role: map<Uuid, int>, orgSymKeys: map<Uuid, Bytes>,
                            rowUuids: map<Uuid, Uuid>, order: seq<Uuid>)
    requires Axioms(c) && WellFormed(f) && IsKeyPair(c, f.spki, f.pkcs8)
    requires org2role.Keys <= orgSymKeys.Keys && org2role.Keys <= rowUuids.Keys
    requires forall o :: o in order <==> o in org2role
    ensures var pub := c.parsePkix(f.spki).value;
            ResolveOrgKeys(c, email, masterPassword, Ok(NewUserRow(c, email, name, masterPassword, f)),
                           Ok(Select(MembershipRows(c, f.uid, pub, org2role, orgSymKeys, rowUuids), order)))
            == Ok(map o | o in org2role :: orgSymKeys[o])
  {
    var pub := c.parsePkix(f.spki).value;
    var pri := c.parsePkcs8(f.pkcs8).value;
    var u := NewUserRow(c, email, name, masterPassword, f);
    var rows := MembershipRows(c, f.uid, pub, org2role, orgSymKeys, rowUuids);
    CredentialsResolve(c, email, masterPassword, f, u);
    MembershipsUnwrap(c, f.uid, pub, pri, org2role, orgSymKeys, rowUuids, order);
    SelectOrgs(rows, order);
    ResolveAgrees(c, email, masterPassword, u, Select(rows, order), pri, orgSymKeys);
    assert OrgsOf(Select(rows, order)) == org2role.Keys;
  }

  /** End to end through the tables: when no earlier user has the email and no earlier membership
      the new uuid, looking the user up by email and the memberships up by uuid in the tables
      `createUser` leaves finds exactly the rows it wrote, and `GetOrgSymKeys` on them gives the
      organization keys it was asked to grant. */
  lemma CreatedUserLooksUp(c: Primitives, email: GoString, name: GoString, masterPassword: GoString,
                           f: Fresh, org2role: map<Uuid, int>, orgSymKeys: map<Uuid, Bytes>,
                           rowUuids: map<Uuid, Uuid>, order: seq<Uuid>,
                           users: seq<UserRow>, memberships: seq<MembershipRow>)
    requires Axioms(c) && WellFormed(f) && IsKeyPair(c, f.spki, f.pkcs8)
    requires org2role.Keys <= orgSymKeys.Keys && org2role.Keys <= rowUuids.Keys
    requires forall o :: o in order <==> o in org2role
    requires FindByEmail(users, email).None?
    requires forall m :: m in memberships ==> m.userUuid != f.uid
    ensures var pub := c.parsePkix(f.spki).value;
            var u := NewUserRow(c, email, name, masterPassword, f);
            var added := Select(MembershipRows(c, f.uid, pub, org2role, orgSymKeys, rowUuids), order);
            && FindByEmail(users + [u], email) == Some(u)
            && MembershipsOf(memberships + added, f.uid) == added
            && ResolveOrgKeys(c, email, masterPassword, Ok(u), Ok(MembershipsOf(memberships + added, f.uid)))
               == Ok(map o | o in org2role :: orgSymKeys[o])
  {
    var pub := c.parsePkix(f.spki).value;
    var u := NewUserRow(c, email, name, masterPassword, f);
    var rows := MembershipRows(c, f.uid, pub, org2role, orgSymKeys, rowUuids);
    var added := Select(rows, order);
    NewUserRowShape(c, email, name, masterPassword, f);
    FindAppended(users, u);
    SelectAt(rows, order);
    forall m | m in added ensures m.userUuid == f.uid {
      var i :| 0 <= i < |added| && added[i] == m;
      MembershipRowsShape(c, f.uid, pub, org2role, orgSymKeys, rowUuids, order[i]);
    }
    MembershipsAppended(memberships, added, f.uid);
    CreatedUserResolves(c, email, name, masterPassword, f, org2role, orgSymKeys, rowUuids, order);
  }

  lemma SelectSnoc(rows: map<Uuid, MembershipRow>, order: seq<Uuid>, o: Uuid)
    requires (forall x :: x in order ==> x in rows) && o in rows
    ensures Select(rows, order + [o]) == Select(rows, order) + [rows[o]]
  {
    assert (order + [o])[..|order|] == order;
  }

  /** When every row of `rows` sits in the organization it is filed under, the rows selected cover
      exactly the organizations of `order`. */
  lemma SelectOrgs(rows: map<Uuid, MembershipRow>, order: seq<Uuid>)
    requires forall o :: o in order ==> o in rows && rows[o].orgUuid == o
    ensures OrgsOf(Select(rows, order)) == set o | o in order
  {
    var ms := Select(rows, order);
    SelectAt(rows, order);
    forall o | o in order ensures o in OrgsOf(ms) {
      var i :| 0 <= i < |order| && order[i] == o;
      assert ms[i] in ms;
    }
  }

  /** Each membership row written for a genuine key pair unwraps to its organization's key. */
  lemma MembershipsUnwrap(c: Primitives, uid: Uuid, pub: RsaPublicKey, pri: RsaPrivateKey, org2role: map<Uuid, int>,
                          orgSymKeys: map<Uuid, Bytes>, rowUuids: map<Uuid, Uuid>, order: seq<Uuid>)
    requires Axioms(c) && pri.pub == pub
    requires org2role.Keys <= orgSymKeys.Keys && org2role.Keys <= rowUuids.Keys
    requires forall o :: o in order ==> o in org2role
    ensures var rows := MembershipRows(c, uid, pub, org2role, orgSymKeys, rowUuids);
            && (forall o :: o in order ==> rows[o].orgUuid == o)
            && AllUnwrapTo(c, pri, Select(rows, order), orgSymKeys)
  {
    var rows := MembershipRows(c, uid, pub, org2role, orgSymKeys, rowUuids);
    var ms := Select(rows, order);
    SelectAt(rows, order);
    forall i | 0 <= i < |ms|
      ensures ms[i].orgUuid in orgSymKeys && BWPKDecrypt(c, ms[i].akey, pri) == Ok(orgSymKeys[ms[i].orgUuid])
    {
      PkRoundTrip(c, orgSymKeys[order[i]], pri);
    }
  }

  /** The user row after `resetUserPassword`: the five credential columns replaced, all else kept. */
  function ResetUserRow(c: Primitives, email: GoString, newMasterPassword: GoString, f: Fresh, u: UserRow): (r: UserRow)
    requires WellFormed(f)
  {
    WithCredentials(u, Credentials(c, email, newMasterPassword, f))
  }

  /** End to end for `resetUserPassword`: with the new password, the user's memberships all resolve to
      the one organization key it was given, whichever organization they belong to. */
  lemma ResetUserResolves(c: Primitives, email: GoString, newMasterPassword: GoString, orgSymKey: Bytes,
                          f: Fresh, u: UserRow, ms: seq<MembershipRow>)
    requires Axioms(c) && WellFormed(f) && IsKeyPair(c, f.spki, f.pkcs8)
    ensures var newMs := MembershipsOf(SetMembershipAkeys(ms, u.uuid, BWPKEncrypt(c, orgSymKey, c.parsePkix(f.spki).value)), u.uuid);
            var r := ResolveOrgKeys(c, email, newMasterPassword, Ok(ResetUserRow(c, email, newMasterPassword, f, u)), Ok(newMs));
            && r.Ok? && r.value.Keys == OrgsOf(newMs)
            && forall o :: o in r.value ==> r.value[o] == orgSymKey
  {
    var pri := c.parsePkcs8(f.pkcs8).value;
    var newMs := MembershipsOf(SetMembershipAkeys(ms, u.uuid, BWPKEncrypt(c, orgSymKey, pri.pub)), u.uuid);
    var keys := map o | o in OrgsOf(newMs) :: orgSymKey;
    CredentialsResolve(c, email, newMasterPassword, f, ResetUserRow(c, email, newMasterPassword, f, u));
    ResetMembershipsUnwrap(c, pri, ms, u.uuid, orgSymKey);
    ResolveAgrees(c, email, newMasterPassword, ResetUserRow(c, email, newMasterPassword, f, u), newMs, pri, keys);
  }

  /** After the update every membership of the user unwraps to the one organization key. */
  lemma ResetMembershipsUnwrap(c: Primitives, pri: RsaPrivateKey, ms: seq<MembershipRow>, userUuid: Uuid, orgSymKey: Bytes)
    requires Axioms(c)
    ensures var newMs := MembershipsOf(SetMembershipAkeys(ms, userUuid, BWPKEncrypt(c, orgSymKey, pri.pub)), userUuid);
            AllUnwrapTo(c, pri, newMs, map o | o in OrgsOf(newMs) :: orgSymKey)
  {
    var akey := BWPKEncrypt(c, orgSymKey, pri.pub);
    var newMs := MembershipsOf(SetMembershipAkeys(ms, userUuid, akey), userUuid);
    var keys := map o | o in OrgsOf(newMs) :: orgSymKey;
    PkRoundTrip(c, orgSymKey, pri);
    forall i | 0 <= i < |newMs| ensures newMs[i].orgUuid in keys && BWPKDecrypt(c, newMs[i].akey, pri) == Ok(keys[newMs[i].orgUuid]) {
      assert newMs[i] in newMs;
      ResetAkey(ms, userUuid, akey, newMs[i]);
    }
  }

  /** A membership of the user after the update carries the new Akey. */
  lemma ResetAkey(ms: seq<MembershipRow>, userUuid: Uuid, akey: GoString, m: MembershipRow)
    requires m in SetMembershipAkeys(ms, userUuid, akey) && m.userUuid == userUuid
    ensures m.akey == akey
  {
    var r := SetMembershipAkeys(ms, userUuid, akey);
    var i :| 0 <= i < |r| && r[i] == m;
  }

  /** Iterating over `keys` in some order: `order` holds the keys visited so far, each once,
      and `remaining` those still to visit. */
  predicate Visiting(keys: set<Uuid>, remaining: set<Uuid>, order: seq<Uuid>) {
    && remaining <= keys
    && (forall o :: o in order ==> o in keys && o !in remaining)
    && (forall o :: o in keys ==> o in remaining || o in order)
    && |order| + |remaining| == |keys|
  }

  lemma VisitingStep(keys: set<Uuid>, remaining: set<Uuid>, order: seq<Uuid>, o: Uuid)
    requires Visiting(keys, remaining, order) && o in remaining
    ensures Visiting(keys, remaining - {o}, order + [o])
  {
  }

  lemma VisitingBound(keys: set<Uuid>, remaining: set<Uuid>, order: seq<Uuid>)
    requires Visiting(keys, remaining, order) && remaining != {}
    ensures |order| < |keys|
  {
  }

  lemma VisitingDone(keys: set<Uuid>, order: seq<Uuid>)
    requires Visiting(keys, {}, order)
    ensures (forall o :: o in order <==> o in keys) && |order| == |keys|
  {
  }

  class Manager {
    const db: Database
    const orgSymKeys: map<Uuid, Bytes>

    constructor (orgSymKeys: map<Uuid, Bytes>, db: Database)
      ensures this.orgSymKeys == orgSymKeys && this.db == db
    {
      this.orgSymKeys := orgSymKeys;
      this.db := db;
    }

    /** The presence check of `createUser`: every organization asked for has a key. Go's map order
        decides which missing organization is reported. */
    method CheckOrgKeys(org2role: map<Uuid, int>) returns (err: Option<Error>)
      ensures err.None? <==> org2role.Keys <= orgSymKeys.Keys
      ensures err.Some? ==> exists o :: o in org2role && o !in orgSymKeys && err.value == MissingOrgKey(o)
    {
      var remaining := org2role.Keys;
      while remaining != {}
        invariant remaining <= org2role.Keys
        invariant forall o :: o in org2role && o !in remaining ==> o in orgSymKeys
        decreases remaining
      {
        var orgUuid :| orgUuid in remaining;
        if orgUuid !in orgSymKeys {
          return Some(MissingOrgKey(orgUuid));
        }
        remaining := remaining - {orgUuid};
      }
      return None;
    }

    /** `createUser`. Write 0 of the transaction is the user insert, write k the k-th membership
        insert; `fails(k)` says whether the database refuses it. `order` is the order Go's map
        iteration visited the organizations in. */
    method CreateUser(c: Primitives, email: GoString, name: GoString, masterPassword: GoString,
                      org2role: map<Uuid, int>, f: Fresh, rowUuids: map<Uuid, Uuid>, fails: nat -> bool)
      returns (err: Option<Error>, ghost order: seq<Uuid>)
      requires WellFormed(f) && org2role.Keys <= rowUuids.Keys
      modifies db
      ensures c.parsePkix(f.spki).None? ==> err == Some(InvalidPublicKey)
      ensures c.parsePkix(f.spki).Some? && !(org2role.Keys <= orgSymKeys.Keys) ==>
                exists o :: o in org2role && o !in orgSymKeys && err == Some(MissingOrgKey(o))
      ensures err.None? <==>
                c.parsePkix(f.spki).Some? && org2role.Keys <= orgSymKeys.Keys &&
                forall k :: 0 <= k <= |org2role| ==> !fails(k)
      ensures err.Some? ==> db.Snapshot() == old(db.Snapshot())
      ensures err.None? ==>
                && (forall o :: o in order <==> o in org2role)
                && |order| == |org2role|
                && db.users == old(db.users) + [NewUserRow(c, email, name, masterPassword, f)]
                && db.memberships == old(db.memberships) +
                     Select(MembershipRows(c, f.uid, c.parsePkix(f.spki).value, org2role, orgSymKeys, rowUuids), order)
    {
      order := [];
      var pubInf := c.parsePkix(f.spki);
      if pubInf.None? {
        return Some(InvalidPublicKey), order;
      }
      err := CheckOrgKeys(org2role);
      if err.Some? {
        return err, order;
      }
      var snapshot := db.Snapshot();
      err := db.CreateUser(NewUserRow(c, email, name, masterPassword, f), fails(0));
      if err.Some? {
        db.Restore(snapshot);
        return err, order;
      }
      var rows := MembershipRows(c, f.uid, pubInf.value, org2role, orgSymKeys, rowUuids);
      err, order := InsertMemberships(rows, fails);
      if err.Some? {
        db.Restore(snapshot);
        return err, order;
      }
      forall k | 0 <= k <= |org2role| ensures !fails(k) {
        if k != 0 { assert 1 <= k <= |rows|; }
      }
    }

    /** The membership inserts of `createUser`'s transaction, writes 1 to |rows|, one per
        organization in Go's map order. */
    method InsertMemberships(rows: map<Uuid, MembershipRow>, fails: nat -> bool)
      returns (err: Option<Error>, ghost order: seq<Uuid>)
      modifies db
      ensures err.None? <==> forall k :: 1 <= k <= |rows| ==> !fails(k)
      ensures err.Some? ==> err == Some(DbFailure)
      ensures err.Some? ==>
                && |order| < |rows| && fails(|order| + 1)
                && (forall j :: 1 <= j <= |order| ==> !fails(j))
                && (forall o :: o in order ==> o in rows)
                && db.memberships == old(db.memberships) + Select(rows, order)
      ensures db.users == old(db.users)
      ensures err.None? ==>
                && (forall o :: o in order <==> o in rows)
                && |order| == |rows|
                && db.memberships == old(db.memberships) + Select(rows, order)
    {
      order := [];
      var remaining := rows.Keys;
      var k := 1;
      while remaining != {}
        invariant Visiting(rows.Keys, remaining, order)
        invariant k == |order| + 1
        invariant forall j :: 1 <= j <= |order| ==> !fails(j)
        invariant db.users == old(db.users)
        invariant db.memberships == old(db.memberships) + Select(rows, order)
        decreases remaining
      {
        var orgUuid :| orgUuid in remaining;
        err := db.CreateMembership(rows[orgUuid], fails(k));
        if err.Some? {
          VisitingBound(rows.Keys, remaining, order);
          assert forall o :: o in order ==> o in rows;
          return err, order;
        }
        SelectSnoc(rows, order, orgUuid);
        assert db.memberships == old(db.memberships) + Select(rows, order + [orgUuid]) by {
          assert old(db.memberships) + Select(rows, order) + [rows[orgUuid]]
              == old(db.memberships) + (Select(rows, order) + [rows[orgUuid]]);
        }
        VisitingStep(rows.Keys, remaining, order, orgUuid);
        order := order + [orgUuid];
        remaining := remaining - {orgUuid};
        k := k + 1;
      }
      VisitingDone(rows.Keys, order);
      return None, order;
    }

    /** `resetUserPassword`, with the one organization key it wraps as a parameter. `lookupFails`
        says whether the user lookup itself fails; write 0 of the transaction is the user update,
        write 1 the membership update. */
    method ResetUserPassword(c: Primitives, email: GoString, newMasterPassword: GoString, orgSymKey: Bytes,
                             f: Fresh, lookupFails: bool, fails: nat -> bool) returns (err: Option<Error>)
      requires WellFormed(f)
      modifies db
      ensures email == [] ==> err == Some(EmailRequired)
      ensures email != [] && c.parsePkix(f.spki).None? ==> err == Some(Panic(PublicKeyParse))
      ensures email != [] && c.parsePkix(f.spki).Some? && lookupFails ==> err == Some(DbFailure)
      ensures email != [] && c.parsePkix(f.spki).Some? && !lookupFails && FindByEmail(old(db.users), email).None? ==>
                err == Some(RecordNotFound)
      ensures err.None? <==>
                email != [] && c.parsePkix(f.spki).Some? && !lookupFails &&
                FindByEmail(old(db.users), email).Some? && !fails(0) && !fails(1)
      ensures err.Some? ==> db.Snapshot() == old(db.Snapshot())
      ensures err.None? ==>
                var uuid := FindByEmail(old(db.users), email).value.uuid;
                && db.users == UpdateCredentials(old(db.users), uuid, Credentials(c, email, newMasterPassword, f))
                && db.memberships == SetMembershipAkeys(old(db.memberships), uuid,
                                                        BWPKEncrypt(c, orgSymKey, c.parsePkix(f.spki).value))
    {
      if email == [] {
        return Some(EmailRequired);
      }
      var credentials := Credentials(c, email, newMasterPassword, f);
      var pubInf := c.parsePkix(f.spki);
      if pubInf.None? {
        return Some(Panic(PublicKeyParse));
      }
      if lookupFails {
        return Some(DbFailure);
      }
      var user := FindByEmail(db.users, email);
      if user.None? {
        return Some(RecordNotFound);
      }
      var snapshot := db.Snapshot();
      err := db.UpdateUserCredentials(user.value.uuid, credentials, fails(0));
      if err.Some? {
        db.Restore(snapshot);
        return err;
      }
      err := db.UpdateMembershipAkeys(user.value.uuid, BWPKEncrypt(c, orgSymKey, pubInf.value), fails(1));
      if err.Some? {
        db.Restore(snapshot);
        return err;
      }
    }
  }
}
