/** The user use cases: hash the password before saving, merge an update
    into the stored record, check existence before deleting, and delegate
    reads. The repository is a map from id to user held in an object. */
module BizUser {
  import opened Errors

  type UserId = nat

  datatype User = User(id: UserId, name: string, email: string, passwordHash: string,
                       createdAt: int, updatedAt: int)

  /** The repository calls a store can be configured to fail. */
  datatype RepoOp = SaveOp | UpdateOp | FindOp | ListOp | DeleteOp | ExistOp

  /** A write the repository received, whether or not it succeeded. */
  datatype Write = Saved(user: User) | Updated(user: User) | Deleted(id: UserId)

  /** The error the store reports for a missing row. */
  const ErrNoRows: Error := Failure("sql: no rows in result set")

  /** The error DeleteByID reports for an unknown id. */
  const ErrUserNotFound: Error := Failure("user not found")

  /** `s` lists every stored user exactly once. */
  ghost predicate Lists(users: map<UserId, User>, s: seq<User>)
  {
    && |s| == |users|
    && (forall i :: 0 <= i < |s| ==> s[i].id in users && users[s[i].id] == s[i])
    && (forall i, j :: 0 <= i < j < |s| ==> s[i].id != s[j].id)
    && (forall id :: id in users ==> users[id] in s)
  }

  /** The stored record after an update request: a non-empty name or email
      in the request replaces the stored one, an empty one keeps it; the id,
      password hash and timestamps are always the stored ones. */
  function MergeUpdate(stored: User, req: User): (merged: User)
    ensures merged.id == stored.id && merged.passwordHash == stored.passwordHash
    ensures merged.createdAt == stored.createdAt && merged.updatedAt == stored.updatedAt
    ensures req.name != "" ==> merged.name == req.name
    ensures req.name == "" ==> merged.name == stored.name
    ensures req.email != "" ==> merged.email == req.email
    ensures req.email == "" ==> merged.email == stored.email
  {
    var user := if req.name != "" then stored.(name := req.name) else stored;
    if req.email != "" then user.(email := req.email) else user
  }

  /** Applying the same request twice changes nothing more. */
  lemma MergeIdempotent(stored: User, req: User)
    ensures MergeUpdate(MergeUpdate(stored, req), req) == MergeUpdate(stored, req)
  {
  }

  /** A request with neither name nor email leaves the record as stored. */
  lemma MergeEmptyRequest(stored: User, req: User)
    requires req.name == "" && req.email == ""
    ensures MergeUpdate(stored, req) == stored
  {
  }

  /** Only the request's name and email matter; its id, password hash and
      timestamps are never copied. */
  lemma MergeReadsOnlyNameAndEmail(stored: User, req: User, req': User)
    requires req.name == req'.name && req.email == req'.email
    ensures MergeUpdate(stored, req) == MergeUpdate(stored, req')
  {
  }

  /** The user store. `faults` names the calls that fail and with which
      error; `writes` records every write call received. */
  class UserRepo {
    var users: map<UserId, User>
    var nextId: UserId
    ghost var writes: seq<Write>
    const faults: map<RepoOp, Error>

    ghost predicate Valid()
      reads this
    {
      forall id :: id in users ==> id < nextId && users[id].id == id
    }

    constructor (faults: map<RepoOp, Error>)
      ensures Valid() && users == map[] && writes == [] && this.faults == faults
    {
      users, nextId, writes := map[], 0, [];
      this.faults := faults;
    }

    /** Inserts the user under a fresh id and returns it with that id. */
    method Save(u: User) returns (res: Result<User>)
      requires Valid()
      modifies this
      ensures Valid() && writes == old(writes) + [Saved(u)]
      ensures SaveOp in faults ==> res == Err(faults[SaveOp]) && users == old(users)
      ensures SaveOp !in faults ==>
                var stored := u.(id := old(nextId));
                old(nextId) !in old(users) && users == old(users)[old(nextId) := stored] && res == Ok(stored)
    {
      writes := writes + [Saved(u)];
      if SaveOp in faults {
        return Err(faults[SaveOp]);
      }
      var stored := u.(id := nextId);
      users := users[nextId := stored];
      nextId := nextId + 1;
      res := Ok(stored);
    }

    /** Overwrites the row with the user's id, if there is one. */
    method Update(u: User) returns (res: Result<User>)
      requires Valid()
      modifies this
      ensures Valid() && writes == old(writes) + [Updated(u)] && nextId == old(nextId)
      ensures UpdateOp in faults ==> res == Err(faults[UpdateOp]) && users == old(users)
      ensures UpdateOp !in faults ==>
                res == Ok(u) && users == if u.id in old(users) then old(users)[u.id := u] else old(users)
    {
      writes := writes + [Updated(u)];
      if UpdateOp in faults {
        return Err(faults[UpdateOp]);
      }
      if u.id in users {
        users := users[u.id := u];
      }
      res := Ok(u);
    }

    method FindByID(id: UserId) returns (res: Result<User>)
      requires Valid()
      ensures FindOp in faults ==> res == Err(faults[FindOp])
      ensures FindOp !in faults ==> res == if id in users then Ok(users[id]) else Err(ErrNoRows)
    {
      if FindOp in faults {
        return Err(faults[FindOp]);
      }
      if id in users {
        res := Ok(users[id]);
      } else {
        res := Err(ErrNoRows);
      }
    }

    /** Every stored user, in the store's (unspecified) order. */
    method ListAll() returns (res: Result<seq<User>>)
      requires Valid()
      ensures ListOp in faults ==> res == Err(faults[ListOp])
      ensures ListOp !in faults ==> res.Ok? && Lists(users, res.value)
    {
      if ListOp in faults {
        return Err(faults[ListOp]);
      }
      var out: seq<User> := [];
      var rest := users.Keys;
      while rest != {}
        invariant rest <= users.Keys
        invariant forall i :: 0 <= i < |out| ==> out[i].id in users && users[out[i].id] == out[i] && out[i].id !in rest
        invariant forall i, j :: 0 <= i < j < |out| ==> out[i].id != out[j].id
        invariant forall id :: id in users && id !in rest ==> users[id] in out
        invariant |out| + |rest| == |users|
        decreases rest
      {
        var id :| id in rest;
        out := out + [users[id]];
        rest := rest - {id};
      }
      res := Ok(out);
    }

    /** Removes the row with that id; an absent id is not an error. */
    method DeleteByID(id: UserId) returns (err: Option<Error>)
      requires Valid()
      modifies this
      ensures Valid() && writes == old(writes) + [Deleted(id)] && nextId == old(nextId)
      ensures DeleteOp in faults ==> err == Some(faults[DeleteOp]) && users == old(users)
      ensures DeleteOp !in faults ==> err == None && users == old(users) - {id}
    {
      writes := writes + [Deleted(id)];
      if DeleteOp in faults {
        return Some(faults[DeleteOp]);
      }
      users := users - {id};
      err := None;
    }

    method ExistByID(id: UserId) returns (res: Result<bool>)
      requires Valid()
      ensures ExistOp in faults ==> res == Err(faults[ExistOp])
      ensures ExistOp !in faults ==> res == Ok(id in users)
    {
      if ExistOp in faults {
        return Err(faults[ExistOp]);
      }
      res := Ok(id in users);
    }
  }

  /** The user use case over one repository. */
  class UserBiz {
    const repo: UserRepo

    constructor (repo: UserRepo)
      ensures this.repo == repo
    {
      this.repo := repo;
    }

    /** Hashes the password field; a hashing error is returned without
        saving, otherwise the user is saved with the hash in place of the
        password and every other field as given, and Save's result returned. */
    method CreateUser(u: User, hash: string -> Result<string>) returns (res: Result<User>)
      requires repo.Valid()
      modifies repo
      ensures repo.Valid()
      ensures hash(u.passwordHash).Err? ==> res == Err(hash(u.passwordHash).error) && unchanged(repo)
      ensures hash(u.passwordHash).Ok? ==>
                var sent := u.(passwordHash := hash(u.passwordHash).value);
                var stored := sent.(id := old(repo.nextId));
                && repo.writes == old(repo.writes) + [Saved(sent)]
                && (SaveOp in repo.faults ==> res == Err(repo.faults[SaveOp]) && repo.users == old(repo.users))
                && (SaveOp !in repo.faults ==>
                      res == Ok(stored) && repo.users == old(repo.users)[old(repo.nextId) := stored])
    {
      var passwordHash := hash(u.passwordHash);
      if passwordHash.Err? {
        return Err(passwordHash.error);
      }
      var user := u.(passwordHash := passwordHash.value);
      res := repo.Save(user);
    }

    /** Reads the stored record (a failed read is returned and nothing is
        written), merges the request's name and email into it, and writes
        the merged record back. */
    method UpdateUser(u: User) returns (res: Result<User>)
      requires repo.Valid()
      modifies repo
      ensures repo.Valid()
      ensures FindOp in repo.faults ==> res == Err(repo.faults[FindOp]) && unchanged(repo)
      ensures FindOp !in repo.faults && u.id !in old(repo.users) ==> res == Err(ErrNoRows) && unchanged(repo)
      ensures FindOp !in repo.faults && u.id in old(repo.users) ==>
                var merged := MergeUpdate(old(repo.users)[u.id], u);
                && repo.writes == old(repo.writes) + [Updated(merged)]
                && (UpdateOp in repo.faults ==> res == Err(repo.faults[UpdateOp]) && repo.users == old(repo.users))
                && (UpdateOp !in repo.faults ==> res == Ok(merged) && repo.users == old(repo.users)[u.id := merged])
    {
      var found := repo.FindByID(u.id);
      if found.Err? {
        return Err(found.error);
      }
      var user := found.value;
      if u.name != "" {
        user := user.(name := u.name);
      }
      if u.email != "" {
        user := user.(email := u.email);
      }
      res := repo.Update(user);
    }

    method FindByID(id: UserId) returns (res: Result<User>)
      requires repo.Valid()
      ensures FindOp in repo.faults ==> res == Err(repo.faults[FindOp])
      ensures FindOp !in repo.faults ==> res == if id in repo.users then Ok(repo.users[id]) else Err(ErrNoRows)
    {
      res := repo.FindByID(id);
    }

    method FindAll() returns (res: Result<seq<User>>)
      requires repo.Valid()
      ensures ListOp in repo.faults ==> res == Err(repo.faults[ListOp])
      ensures ListOp !in repo.faults ==> res.Ok? && Lists(repo.users, res.value)
    {
      res := repo.ListAll();
    }

    /** Checks existence first: a failed check is returned, an unknown id is
        "user not found", and in both cases nothing is deleted; otherwise the
        delete runs and its error is returned, leaving every other user as
        it was. */
    method DeleteByID(id: UserId) returns (err: Option<Error>)
      requires repo.Valid()
      modifies repo
      ensures repo.Valid()
      ensures ExistOp in repo.faults ==> err == Some(repo.faults[ExistOp]) && unchanged(repo)
      ensures ExistOp !in repo.faults && id !in old(repo.users) ==> err == Some(ErrUserNotFound) && unchanged(repo)
      ensures ExistOp !in repo.faults && id in old(repo.users) ==>
                && repo.writes == old(repo.writes) + [Deleted(id)]
                && (DeleteOp in repo.faults ==> err == Some(repo.faults[DeleteOp]) && repo.users == old(repo.users))
                && (DeleteOp !in repo.faults ==>
                      err == None && id !in repo.users &&
                      forall other :: other != id ==> (other in repo.users <==> other in old(repo.users)) &&
                                                      (other in repo.users ==> repo.users[other] == old(repo.users)[other]))
    {
      var exist := repo.ExistByID(id);
      if exist.Err? {
        return Some(exist.error);
      }
      if !exist.value {
        return Some(ErrUserNotFound);
      }
      err := repo.DeleteByID(id);
    }
  }
}
