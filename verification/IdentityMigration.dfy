/** Moving the OAuth identity out of `users` and back: the backfill of
    `user_identities`, the collapse of `provider` into `account_type`, and the
    downgrade that undoes it. */
module IdentityMigration {
  import opened Common

  type Id = int

  /** Values of the text column called `provider` before and `account_type` after. */
  datatype Label = Google | Apple | Internal | Deleted | Dev | Oauth

  /** A users row; `providerId` is None as well while the column does not exist. */
  datatype User = User(
    email: string, provider: Label, providerId: Option<string>, passwordHash: Option<string>, createdAt: int)

  datatype Identity = Identity(user: Id, provider: Label, providerId: string, email: string, createdAt: int)

  type Users = map<Id, User>
  type Identities = map<Id, Identity>

  datatype Result<T> = Ok(value: T) | Aborted

  // ── Constraints ────────────────────────────────────────────────────────────

  predicate IsOauth(provider: Label) { provider == Google || provider == Apple }

  predicate ProviderCheck(u: User) { u.provider != Oauth }

  predicate AuthCoherence(u: User) {
    || (IsOauth(u.provider) && u.providerId.Some? && u.passwordHash == None)
    || ((u.provider == Internal || u.provider == Deleted || u.provider == Dev) &&
        u.providerId == None && u.passwordHash == None)
  }

  predicate AccountTypeCheck(u: User) { !IsOauth(u.provider) }

  /** UNIQUE (provider, provider_id); NULLs never collide. */
  predicate ProviderUnique(users: Users) {
    forall a, b :: a in users && b in users && a != b && users[a].providerId.Some? ==>
      users[a].provider != users[b].provider || users[a].providerId != users[b].providerId
  }

  predicate EmailUnique(users: Users) {
    forall a, b :: a in users && b in users && a != b ==> users[a].email != users[b].email
  }

  /** What the schema guarantees of `users` before the migrations. */
  predicate OldSchema(users: Users) {
    && (forall a :: a in users ==> ProviderCheck(users[a]) && AuthCoherence(users[a]))
    && ProviderUnique(users) && EmailUnique(users)
  }

  /** What it guarantees after them. */
  predicate NewSchema(users: Users, identities: Identities) {
    && (forall a :: a in users ==> AccountTypeCheck(users[a]) && users[a].providerId == None)
    && (forall i :: i in identities ==> IsOauth(identities[i].provider))
    && (forall i, j :: i in identities && j in identities && i != j ==>
          identities[i].provider != identities[j].provider || identities[i].providerId != identities[j].providerId)
  }

  // ── The migrations ─────────────────────────────────────────────────────────

  predicate Backfilled(u: User) { IsOauth(u.provider) && u.providerId.Some? }

  /** The grouped duplicate check finds nothing. */
  predicate NoDuplicates(users: Users) {
    forall a, b :: a in users && b in users && a != b && Backfilled(users[a]) && Backfilled(users[b]) ==>
      users[a].provider != users[b].provider || users[a].providerId != users[b].providerId
  }

  /** `mint` is the generated identity id of each user. */
  ghost predicate Mints(mint: map<Id, Id>, users: Users) {
    mint.Keys == users.Keys && forall a, b :: a in mint && b in mint && a != b ==> mint[a] != mint[b]
  }

  function IdentityOf(a: Id, u: User): Identity
    requires Backfilled(u)
  {
    Identity(a, u.provider, u.providerId.value, u.email, u.createdAt)
  }

  ghost function UpgradeIdentities(users: Users, mint: map<Id, Id>): Result<Identities>
    requires Mints(mint, users)
  {
    if !NoDuplicates(users) then Aborted
    else Ok(map a | a in users && Backfilled(users[a]) :: mint[a] := IdentityOf(a, users[a]))
  }

  function Collapsed(u: User): User {
    u.(provider := if IsOauth(u.provider) then Oauth else u.provider, providerId := None)
  }

  function UpgradeAccountType(users: Users): Users {
    map a | a in users :: Collapsed(users[a])
  }

  /** The join's match for a user: any of its identities. */
  predicate Owns(identities: Identities, i: Id, a: Id) {
    i in identities && identities[i].user == a
  }

  function Relabelled(u: User, identity: Identity): User {
    u.(provider := identity.provider, providerId := Some(identity.providerId))
  }

  ghost function Restored(a: Id, u: User, identities: Identities): User {
    if u.provider == Oauth && exists i :: Owns(identities, i, a) then
      var i :| Owns(identities, i, a);
      Relabelled(u, identities[i])
    else u
  }

  ghost function Rejoined(users: Users, identities: Identities): Users {
    map a | a in users :: Restored(a, users[a], identities)
  }

  /** The four constraints are re-added, and any violation aborts. */
  ghost function DowngradeAccountType(users: Users, identities: Identities): Result<Users> {
    var back := Rejoined(users, identities);
    if OldSchema(back) then Ok(back) else Aborted
  }

  /** Both upgrades, then the downgrade of the second. */
  ghost function RoundTrip(users: Users, mint: map<Id, Id>): Result<Users>
    requires Mints(mint, users)
  {
    var identities := UpgradeIdentities(users, mint);
    if identities == Aborted then Aborted
    else DowngradeAccountType(UpgradeAccountType(users), identities.value)
  }

  // ── The round trip ─────────────────────────────────────────────────────────

  /** The backfill gives each OAuth user with a provider id its one identity. */
  lemma BackfillOwns(users: Users, mint: map<Id, Id>, i: Id, a: Id)
    requires Mints(mint, users) && UpgradeIdentities(users, mint).Ok?
    ensures Owns(UpgradeIdentities(users, mint).value, i, a) <==>
      a in users && Backfilled(users[a]) && i == mint[a]
    ensures Owns(UpgradeIdentities(users, mint).value, i, a) ==>
      UpgradeIdentities(users, mint).value[i] == IdentityOf(a, users[a])
  {
    var identities := UpgradeIdentities(users, mint).value;
    if a in users && Backfilled(users[a]) {
      assert mint[a] in identities && identities[mint[a]] == IdentityOf(a, users[a]);
    }
    if Owns(identities, i, a) {
      var b :| b in users && Backfilled(users[b]) && mint[b] == i;
      assert identities[i] == IdentityOf(b, users[b]);
    }
  }

  /** An identity copies its user's OAuth columns, email and creation time. */
  lemma BackfillCopies(users: Users, mint: map<Id, Id>, a: Id)
    requires Mints(mint, users) && UpgradeIdentities(users, mint).Ok?
    requires a in users && IsOauth(users[a].provider) && users[a].providerId.Some?
    ensures var identities := UpgradeIdentities(users, mint).value;
      && mint[a] in identities
      && identities[mint[a]].user == a
      && identities[mint[a]].provider == users[a].provider
      && Some(identities[mint[a]].providerId) == users[a].providerId
      && identities[mint[a]].email == users[a].email
      && identities[mint[a]].createdAt == users[a].createdAt
  {
    BackfillOwns(users, mint, mint[a], a);
  }

  /** Collapsing turns google and apple into oauth, drops the provider id, and
      leaves every other label and column alone. */
  lemma CollapseKeeps(users: Users, a: Id)
    ensures var up := UpgradeAccountType(users);
      && (a in up <==> a in users)
      && (a in users ==>
            && (if users[a].provider == Google || users[a].provider == Apple
                then up[a].provider == Oauth else up[a].provider == users[a].provider)
            && up[a].providerId == None && up[a].email == users[a].email
            && up[a].passwordHash == users[a].passwordHash && up[a].createdAt == users[a].createdAt)
  {
  }

  lemma RestoredIsOriginal(users: Users, mint: map<Id, Id>, a: Id)
    requires Mints(mint, users) && UpgradeIdentities(users, mint).Ok? && a in users
    requires ProviderCheck(users[a]) && AuthCoherence(users[a])
    ensures Restored(a, Collapsed(users[a]), UpgradeIdentities(users, mint).value) == users[a]
  {
    var identities := UpgradeIdentities(users, mint).value;
    if IsOauth(users[a].provider) {
      BackfillOwns(users, mint, mint[a], a);
      forall i | Owns(identities, i, a)
        ensures identities[i] == IdentityOf(a, users[a])
      {
        BackfillOwns(users, mint, i, a);
      }
    }
  }

  /** Upgrading twice and downgrading once gives back every user exactly as it
      was, if and only if the table satisfied the old schema. */
  lemma RoundTripIff(users: Users, mint: map<Id, Id>)
    requires Mints(mint, users)
    ensures RoundTrip(users, mint) == Ok(users) <==> OldSchema(users)
  {
    if OldSchema(users) {
      assert NoDuplicates(users);
      var identities := UpgradeIdentities(users, mint).value;
      var up := UpgradeAccountType(users);
      forall a | a in users
        ensures Rejoined(up, identities)[a] == users[a]
      {
        RestoredIsOriginal(users, mint, a);
      }
      assert Rejoined(up, identities) == users;
    }
  }

  /** The upgrade establishes the new schema whenever it is not aborted, and it
      is aborted exactly on a repeated (provider, provider_id) pair. */
  lemma UpgradeEstablishesNewSchema(users: Users, mint: map<Id, Id>)
    requires Mints(mint, users)
    ensures UpgradeIdentities(users, mint) == Aborted <==>
      exists a, b :: a in users && b in users && a != b && Backfilled(users[a]) && Backfilled(users[b]) &&
        users[a].provider == users[b].provider && users[a].providerId == users[b].providerId
    ensures UpgradeIdentities(users, mint).Ok? ==>
      NewSchema(UpgradeAccountType(users), UpgradeIdentities(users, mint).value)
  {
    if UpgradeIdentities(users, mint).Ok? {
      var identities := UpgradeIdentities(users, mint).value;
      forall i, j | i in identities && j in identities && i != j
        ensures identities[i].provider != identities[j].provider || identities[i].providerId != identities[j].providerId
      {
        var a :| a in users && Backfilled(users[a]) && mint[a] == i;
        var b :| b in users && Backfilled(users[b]) && mint[b] == j;
        assert identities[i] == IdentityOf(a, users[a]) && identities[j] == IdentityOf(b, users[b]);
      }
    }
  }

  /** Later accounts and linked identities do not matter to the downgrade: from
      any table of the new schema it succeeds exactly when every OAuth account
      still owns an identity, no account has a password and no email is shared. */
  lemma DowngradeSucceedsIff(users: Users, identities: Identities)
    requires NewSchema(users, identities)
    ensures DowngradeAccountType(users, identities).Ok? <==>
      && (forall a :: a in users && users[a].provider == Oauth ==> exists i :: Owns(identities, i, a))
      && (forall a :: a in users ==> users[a].passwordHash == None)
      && EmailUnique(users)
  {
    var back := Rejoined(users, identities);
    forall a | a in users
      ensures AuthCoherence(back[a]) && ProviderCheck(back[a]) <==>
        users[a].passwordHash == None && (users[a].provider == Oauth ==> exists i :: Owns(identities, i, a))
    {
      RestoredLabel(a, users[a], identities);
    }
    assert EmailUnique(back) <==> EmailUnique(users) by {
      assert forall a :: a in users ==> back[a].email == users[a].email;
    }
    RejoinedIsUnique(users, identities);
  }

  /** Identities are unique, so restored users are. */
  lemma RejoinedIsUnique(users: Users, identities: Identities)
    requires NewSchema(users, identities)
    ensures ProviderUnique(Rejoined(users, identities))
  {
    var back := Rejoined(users, identities);
    forall a, b | a in back && b in back && a != b && back[a].providerId.Some? && back[a].provider == back[b].provider
      ensures back[a].providerId != back[b].providerId
    {
      RestoredLabel(a, users[a], identities);
      RestoredLabel(b, users[b], identities);
    }
  }

  lemma RestoredLabel(a: Id, u: User, identities: Identities)
    requires AccountTypeCheck(u) && u.providerId == None
    ensures var r := Restored(a, u, identities);
      if u.provider == Oauth && exists i :: Owns(identities, i, a)
      then exists i :: Owns(identities, i, a) && r == Relabelled(u, identities[i])
      else r == u
  {
  }

  /** A downgrade that succeeds gives each OAuth account the provider pair of one
      of its own identities, and changes nothing else. */
  lemma DowngradeRestores(users: Users, identities: Identities, a: Id)
    requires NewSchema(users, identities) && DowngradeAccountType(users, identities).Ok? && a in users
    ensures var back := DowngradeAccountType(users, identities).value;
      && back.Keys == users.Keys
      && back[a].email == users[a].email && back[a].passwordHash == users[a].passwordHash
      && back[a].createdAt == users[a].createdAt
      && if users[a].provider != Oauth then back[a] == users[a]
         else exists i :: i in identities && identities[i].user == a &&
                back[a].provider == identities[i].provider && back[a].providerId == Some(identities[i].providerId)
  {
    DowngradeSucceedsIff(users, identities);
    RestoredLabel(a, users[a], identities);
    if users[a].provider == Oauth {
      var i :| Owns(identities, i, a) && Restored(a, users[a], identities) == Relabelled(users[a], identities[i]);
      assert identities[i].user == a;
    }
  }

  // ── The tables as the migrations rewrite them ──────────────────────────────

  class Schema {
    var users: Users
    var identities: Identities

    constructor (u: Users)
      ensures users == u && identities == map[]
    {
      users, identities := u, map[];
    }

    /** Pre-check, then INSERT ... SELECT. */
    method Backfill(mint: map<Id, Id>) returns (ok: bool)
      requires Mints(mint, users)
      modifies this`identities
      ensures ok <==> UpgradeIdentities(users, mint).Ok?
      ensures ok ==> identities == UpgradeIdentities(users, mint).value
      ensures !ok ==> identities == old(identities)
    {
      ok := NoDuplicates(users);
      if !ok {
        return;
      }
      identities := map a | a in users && Backfilled(users[a]) :: mint[a] := IdentityOf(a, users[a]);
    }

    /** Rename the column, rewrite its OAuth values, drop `provider_id`. */
    method CollapseProvider()
      modifies this`users
      ensures users == UpgradeAccountType(old(users))
    {
      var renamed := users;
      users := map a | a in renamed ::
        renamed[a].(provider := if IsOauth(renamed[a].provider) then Oauth else renamed[a].provider);
      var rewritten := users;
      users := map a | a in rewritten :: rewritten[a].(providerId := None);
      assert forall a :: a in renamed ==> users[a] == Collapsed(renamed[a]);
    }
  }
}
