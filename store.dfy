/** The two tables the core writes (`users` and `users_organizations`) and the gorm operations it uses
    on them, with `db.Transaction` modelled as snapshot, apply, and restore on failure. Whether a
    database write fails is not known to the model: each write takes the answer as a parameter. */
module Store {
  import opened Base

  type Uuid = GoString

  /** The columns of `model.User` the core sets. */
  datatype UserRow = UserRow(
    uuid: Uuid,
    name: GoString,
    email: GoString,
    passwordHash: Bytes,
    passwordIterations: int,
    salt: Bytes,
    akey: GoString,
    publicKey: GoString,
    privateKey: GoString,
    equivalentDomains: GoString,
    excludedGlobals: GoString,
    securityStamp: Uuid,
    clientKdfIter: int)

  /** `model.UsersOrganization`: one user's membership of one organization. */
  datatype MembershipRow = MembershipRow(
    uuid: Uuid,
    userUuid: Uuid,
    orgUuid: Uuid,
    akey: GoString,
    accessAll: bool,
    status: int,
    atype: int)

  /** The five columns `resetUserPassword` rewrites: password_hash, salt, akey, public_key, private_key. */
  datatype UserCredentials = UserCredentials(
    passwordHash: Bytes,
    salt: Bytes,
    akey: GoString,
    publicKey: GoString,
    privateKey: GoString)

  function WithCredentials(u: UserRow, k: UserCredentials): (r: UserRow)
    ensures r.passwordHash == k.passwordHash && r.salt == k.salt && r.akey == k.akey
    ensures r.publicKey == k.publicKey && r.privateKey == k.privateKey
    ensures r.uuid == u.uuid && r.name == u.name && r.email == u.email
    ensures r.passwordIterations == u.passwordIterations && r.securityStamp == u.securityStamp
    ensures r.equivalentDomains == u.equivalentDomains && r.excludedGlobals == u.excludedGlobals
    ensures r.clientKdfIter == u.clientKdfIter
  {
    u.(passwordHash := k.passwordHash, salt := k.salt, akey := k.akey,
       publicKey := k.publicKey, privateKey := k.privateKey)
  }

  /** `UPDATE users SET <credentials> WHERE uuid = ?`. */
  function UpdateCredentials(users: seq<UserRow>, uuid: Uuid, k: UserCredentials): (r: seq<UserRow>)
    ensures |r| == |users|
    ensures forall i :: 0 <= i < |r| ==>
              r[i] == if users[i].uuid == uuid then WithCredentials(users[i], k) else users[i]
  {
    seq(|users|, i requires 0 <= i < |users| =>
      if users[i].uuid == uuid then WithCredentials(users[i], k) else users[i])
  }

  /** `UPDATE users_organizations SET akey = ? WHERE user_uuid = ?`. */
  function SetMembershipAkeys(ms: seq<MembershipRow>, userUuid: Uuid, akey: GoString): (r: seq<MembershipRow>)
    ensures |r| == |ms|
    ensures forall i :: 0 <= i < |r| ==>
              r[i] == if ms[i].userUuid == userUuid then ms[i].(akey := akey) else ms[i]
  {
    seq(|ms|, i requires 0 <= i < |ms| =>
      if ms[i].userUuid == userUuid then ms[i].(akey := akey) else ms[i])
  }

  /** `db.Where("email = ?", email).First(&user)`. `First` takes the matching row of lowest primary
      key; the email column is unique, so at most one row matches and the model simply takes the
      one it finds. */
  function FindByEmail(users: seq<UserRow>, email: GoString): (r: Option<UserRow>)
    ensures r.Some? <==> exists i :: 0 <= i < |users| && users[i].email == email
    ensures r.Some? ==> r.value in users && r.value.email == email
  {
    if |users| == 0 then None
    else if users[0].email == email then Some(users[0])
    else FindByEmail(users[1..], email)
  }

  /** A row appended with an email no earlier row has is the one `FindByEmail` returns. */
  lemma {:induction false} FindAppended(users: seq<UserRow>, u: UserRow)
    requires FindByEmail(users, u.email).None?
    ensures FindByEmail(users + [u], u.email) == Some(u)
    decreases |users|
  {
    if |users| > 0 {
      assert (users + [u])[1..] == users[1..] + [u];
      FindAppended(users[1..], u);
    }
  }

  /** `db.Where("user_uuid = ?", uuid).Find(&userOrgs)`, in table order. */
  function MembershipsOf(ms: seq<MembershipRow>, userUuid: Uuid): (r: seq<MembershipRow>)
    ensures forall m :: m in r <==> m in ms && m.userUuid == userUuid
    ensures |r| <= |ms|
  {
    if |ms| == 0 then []
    else (if ms[0].userUuid == userUuid then [ms[0]] else []) + MembershipsOf(ms[1..], userUuid)
  }

  /** Listing a user's memberships distributes over appending rows. */
  lemma {:induction false} MembershipsOfConcat(a: seq<MembershipRow>, b: seq<MembershipRow>, userUuid: Uuid)
    ensures MembershipsOf(a + b, userUuid) == MembershipsOf(a, userUuid) + MembershipsOf(b, userUuid)
    decreases |a|
  {
    if |a| > 0 {
      assert (a + b)[0] == a[0];
      assert (a + b)[1..] == a[1..] + b;
      MembershipsOfConcat(a[1..], b, userUuid);
    } else {
      assert a + b == b;
    }
  }

  /** Every row of `ms` belongs to the user: the listing is `ms` itself. */
  lemma {:induction false} MembershipsOfAll(ms: seq<MembershipRow>, userUuid: Uuid)
    requires forall m :: m in ms ==> m.userUuid == userUuid
    ensures MembershipsOf(ms, userUuid) == ms
    decreases |ms|
  {
    if |ms| > 0 {
      assert ms[0] in ms;
      MembershipsOfAll(ms[1..], userUuid);
      assert ms == [ms[0]] + ms[1..];
    }
  }

  /** No row of `ms` belongs to the user: the listing is empty. */
  lemma {:induction false} MembershipsOfNone(ms: seq<MembershipRow>, userUuid: Uuid)
    requires forall m :: m in ms ==> m.userUuid != userUuid
    ensures MembershipsOf(ms, userUuid) == []
    decreases |ms|
  {
    if |ms| > 0 {
      assert ms[0] in ms;
      MembershipsOfNone(ms[1..], userUuid);
    }
  }

  /** Memberships appended for a user who had none are, in order, the user's memberships after. */
  lemma MembershipsAppended(ms: seq<MembershipRow>, added: seq<MembershipRow>, userUuid: Uuid)
    requires forall m :: m in ms ==> m.userUuid != userUuid
    requires forall m :: m in added ==> m.userUuid == userUuid
    ensures MembershipsOf(ms + added, userUuid) == added
  {
    MembershipsOfConcat(ms, added, userUuid);
    MembershipsOfAll(added, userUuid);
    MembershipsOfNone(ms, userUuid);
  }

  datatype Tables = Tables(users: seq<UserRow>, memberships: seq<MembershipRow>)

  class Database {
    var users: seq<UserRow>
    var memberships: seq<MembershipRow>

    constructor (users: seq<UserRow>, memberships: seq<MembershipRow>)
      ensures this.users == users && this.memberships == memberships
    {
      this.users := users;
      this.memberships := memberships;
    }

    function Snapshot(): (t: Tables)
      reads this
    {
      Tables(users, memberships)
    }

    /** Rolling back a transaction puts the tables back as they were when it began. */
    method Restore(t: Tables)
      modifies this
      ensures Snapshot() == t
    {
      users, memberships := t.users, t.memberships;
    }

    /** `tx.Create(&user)`. */
    method CreateUser(row: UserRow, fails: bool) returns (err: Option<Error>)
      modifies this
      ensures err == if fails then Some(DbFailure) else None
      ensures memberships == old(memberships)
      ensures users == if fails then old(users) else old(users) + [row]
    {
      if fails {
        return Some(DbFailure);
      }
      users := users + [row];
      return None;
    }

    /** `tx.Create(&userOrg)`. */
    method CreateMembership(row: MembershipRow, fails: bool) returns (err: Option<Error>)
      modifies this
      ensures err == if fails then Some(DbFailure) else None
      ensures users == old(users)
      ensures memberships == if fails then old(memberships) else old(memberships) + [row]
    {
      if fails {
        return Some(DbFailure);
      }
      memberships := memberships + [row];
      return None;
    }

    /** `tx.Model(&model.User{}).Where("uuid = ?", uuid).Updates(...)`. */
    method UpdateUserCredentials(uuid: Uuid, k: UserCredentials, fails: bool) returns (err: Option<Error>)
      modifies this
      ensures err == if fails then Some(DbFailure) else None
      ensures memberships == old(memberships)
      ensures users == if fails then old(users) else UpdateCredentials(old(users), uuid, k)
    {
      if fails {
        return Some(DbFailure);
      }
      users := UpdateCredentials(users, uuid, k);
      return None;
    }

    /** `tx.Model(&model.UsersOrganization{}).Where("user_uuid = ?", uuid).Update("akey", akey)`. */
    method UpdateMembershipAkeys(userUuid: Uuid, akey: GoString, fails: bool) returns (err: Option<Error>)
      modifies this
      ensures err == if fails then Some(DbFailure) else None
      ensures users == old(users)
      ensures memberships == if fails then old(memberships) else SetMembershipAkeys(old(memberships), userUuid, akey)
    {
      if fails {
        return Some(DbFailure);
      }
      memberships := SetMembershipAkeys(memberships, userUuid, akey);
      return None;
    }
  }
}
