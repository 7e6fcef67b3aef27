/** `Register` of mgr/registration.go: the single-organization manager, which inserts one user and
    one membership of its own organization inside one transaction. */
module Registration {
  import opened Base
  import opened Crypto
  import opened Pkcs
  import opened Store
  import opened KeyHierarchy
  import opened Provisioning

  /** `ITERATIONS` of mgr/main.go. */
  const ITERATIONS: int := 600_000

  /** The user row `Register` inserts carries the iteration count of mgr/main.go in both iteration
      columns, the count the master key of that row was derived with. */
  lemma RegisteredRowIterations(c: Primitives, email: GoString, name: GoString, masterPassword: GoString, f: Fresh)
    requires WellFormed(f)
    ensures var u := NewUserRow(c, email, name, masterPassword, f);
            u.passwordIterations == ITERATIONS && u.clientKdfIter == ITERATIONS
  {
    NewUserRowShape(c, email, name, masterPassword, f);
  }

  /** `Atype` of the membership `Register` writes. */
  const REGISTERED_ATYPE: int := 3

  /** End to end: the two rows `Register` writes resolve, with the same email and password, to the
      manager's organization key for its organization and nothing else. */
  lemma RegisteredUserResolves(c: Primitives, email: GoString, name: GoString, masterPassword: GoString,
                               f: Fresh, orgUuid: Uuid, orgSymKey: Bytes, membershipUuid: Uuid)
    requires Axioms(c) && WellFormed(f) && IsKeyPair(c, f.spki, f.pkcs8)
    ensures var pub := c.parsePkix(f.spki).value;
            var m := NewMembershipRow(c, f.uid, pub, orgUuid, REGISTERED_ATYPE, orgSymKey, membershipUuid);
            ResolveOrgKeys(c, email, masterPassword, Ok(NewUserRow(c, email, name, masterPassword, f)), Ok([m]))
            == Ok(map[orgUuid := orgSymKey])
  {
    var pri := c.parsePkcs8(f.pkcs8).value;
    var u := NewUserRow(c, email, name, masterPassword, f);
    var m := NewMembershipRow(c, f.uid, pri.pub, orgUuid, REGISTERED_ATYPE, orgSymKey, membershipUuid);
    CredentialsResolve(c, email, masterPassword, f, u);
    OneMembershipUnwraps(c, pri, m, orgSymKey);
    ResolveAgrees(c, email, masterPassword, u, [m], pri, map[orgUuid := orgSymKey]);
    SingleOrg(OrgsOf([m]), orgUuid, orgSymKey);
  }

  /** A membership whose Akey is `BWPKEncrypt(key, pri.pub)` unwraps to `key`. */
  lemma OneMembershipUnwraps(c: Primitives, pri: RsaPrivateKey, m: MembershipRow, key: Bytes)
    requires Axioms(c) && m.akey == BWPKEncrypt(c, key, pri.pub)
    ensures AllUnwrapTo(c, pri, [m], map[m.orgUuid := key])
    ensures OrgsOf([m]) == {m.orgUuid}
  {
    PkRoundTrip(c, key, pri);
    assert m in [m];
  }

  lemma SingleOrg(dom: set<Uuid>, o: Uuid, key: Bytes)
    requires dom == {o}
    ensures (map x | x in dom :: map[o := key][x]) == map[o := key]
  {
  }

  class Manager {
    const orgUuid: Uuid
    const orgSymKey: Bytes
    const db: Database

    constructor (orgUuid: Uuid, orgSymKey: Bytes, db: Database)
      ensures this.orgUuid == orgUuid && this.orgSymKey == orgSymKey && this.db == db
    {
      this.orgUuid := orgUuid;
      this.orgSymKey := orgSymKey;
      this.db := db;
    }

    /** `Register`. Write 0 of the transaction is the user insert, write 1 the membership insert. */
    method Register(c: Primitives, email: GoString, name: GoString, masterPassword: GoString,
                    f: Fresh, membershipUuid: Uuid, fails: nat -> bool) returns (err: Option<Error>)
      requires WellFormed(f)
      modifies db
      ensures c.parsePkix(f.spki).None? ==> err == Some(InvalidPublicKey)
      ensures err.None? <==> c.parsePkix(f.spki).Some? && !fails(0) && !fails(1)
      ensures err.Some? ==> db.Snapshot() == old(db.Snapshot())
      ensures err.None? ==>
                && db.users == old(db.users) + [NewUserRow(c, email, name, masterPassword, f)]
                && db.memberships == old(db.memberships) +
                     [NewMembershipRow(c, f.uid, c.parsePkix(f.spki).value, orgUuid, REGISTERED_ATYPE, orgSymKey, membershipUuid)]
    {
      var pubInf := c.parsePkix(f.spki);
      if pubInf.None? {
        return Some(InvalidPublicKey);
      }
      var snapshot := db.Snapshot();
      err := db.CreateUser(NewUserRow(c, email, name, masterPassword, f), fails(0));
      if err.Some? {
        db.Restore(snapshot);
        return err;
      }
      var userOrg := NewMembershipRow(c, f.uid, pubInf.value, orgUuid, REGISTERED_ATYPE, orgSymKey, membershipUuid);
      err := db.CreateMembership(userOrg, fails(1));
      if err.Some? {
        db.Restore(snapshot);
        return err;
      }
    }
  }
}
