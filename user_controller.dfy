/** server/src/controllers/userController.js: profile and status updates, the
    user search and the contact list. */
module UserController {
  import opened Common
  import opened UserModel
  import opened Database
  import opened Http
  import Sorting

  /** The update `updateProfile` sends: the body fields that are present. */
  function UpdateOf(displayName: Option<string>, bio: Option<string>, status: Option<string>)
    : (data: map<string, string>)
    ensures data.Keys <= {"displayName", "bio", "status"}
    ensures "displayName" in data <==> displayName.Some?
    ensures "bio" in data <==> bio.Some?
    ensures "status" in data <==> status.Some?
    ensures displayName.Some? ==> data["displayName"] == displayName.value
    ensures bio.Some? ==> data["bio"] == bio.value
    ensures status.Some? ==> data["status"] == status.value
  {
    var m1 := if displayName.Some? then map["displayName" := displayName.value] else map[];
    var m2 := if bio.Some? then m1["bio" := bio.value] else m1;
    if status.Some? then m2["status" := status.value] else m2
  }

  /** `updateData` is filled field by field. */
  method BuildUpdate(displayName: Option<string>, bio: Option<string>, status: Option<string>)
    returns (data: map<string, string>)
    ensures data == UpdateOf(displayName, bio, status)
  {
    data := map[];
    if displayName.Some? {
      data := data["displayName" := displayName.value];
    }
    if bio.Some? {
      data := data["bio" := bio.value];
    }
    if status.Some? {
      data := data["status" := status.value];
    }
  }

  /** The update validators (`runValidators: true`) on the fields of the update:
      displayName is trimmed first, then checked with bio against their maximum
      lengths, and status against its enum. */
  predicate UpdateValid(data: map<string, string>) {
    ("displayName" in data ==> Utf16Length(Trim(data["displayName"])) <= DisplayNameMaxLength) &&
    ("bio" in data ==> Utf16Length(data["bio"]) <= BioMaxLength) &&
    ("status" in data ==> data["status"] in Statuses)
  }

  /** The stored user after `findByIdAndUpdate`; the save hooks do not run. */
  function Applied(u: UserRecord, data: map<string, string>): (r: UserRecord)
    ensures r.id == u.id && r.username == u.username && r.email == u.email && r.password == u.password
    ensures r.avatar == u.avatar && r.lastSeen == u.lastSeen && r.isVerified == u.isVerified
    ensures r.displayName == if "displayName" in data then Some(Trim(data["displayName"])) else u.displayName
    ensures r.bio == if "bio" in data then data["bio"] else u.bio
    ensures r.status == if "status" in data then data["status"] else u.status
  {
    var u1 := if "displayName" in data then u.(displayName := Some(Trim(data["displayName"]))) else u;
    var u2 := if "bio" in data then u1.(bio := data["bio"]) else u1;
    if "status" in data then u2.(status := data["status"]) else u2
  }

  /** An update keeps every field valid that it leaves alone, and a valid update
      keeps a valid user valid. */
  lemma AppliedKeepsFieldsValid(u: UserRecord, data: map<string, string>)
    requires FieldsValid(u) && UpdateValid(data)
    ensures FieldsValid(Applied(u, data))
  {
  }

  /** Because the displayName hook runs only on `save`, a blank displayName is
      stored as `""`, while `name` still falls back to the username. */
  lemma ProfileUpdateCanBlankDisplayName(u: UserRecord, blank: string)
    requires AllSpace(blank)
    ensures Applied(u, map["displayName" := blank]).displayName == Some("")
    ensures Name(Applied(u, map["displayName" := blank])) == u.username
    ensures WithDefaultDisplayName(u.(displayName := Some(""))).displayName == Some(u.username)
  {
    TrimEmptyIff(blank);
  }

  lemma ReplaceUserKeepsWellFormed(users: seq<UserRecord>, i: nat, u: UserRecord)
    requires UsersWellFormed(users) && i < |users| && u.id == users[i].id
    ensures UsersWellFormed(users[i := u])
  {
    var r := users[i := u];
    forall a, b | 0 <= a < b < |r| ensures r[a].id != r[b].id {
      assert r[a].id == users[a].id && r[b].id == users[b].id;
    }
  }

  /** `updateProfile`: validation runs before the lookup, so an invalid update
      fails with 500 whether or not the user exists. */
  method UpdateProfile(db: Db, caller: UserId, displayName: Option<string>, bio: Option<string>,
                       status: Option<string>) returns (reply: Reply<UserRecord>)
    requires db.Valid()
    modifies db`users
    ensures db.Valid()
    ensures var data := UpdateOf(displayName, bio, status);
            if !UpdateValid(data) then
              reply == Err(500, "Failed to update profile") && db.users == old(db.users)
            else if FindUser(old(db.users), caller).None? then
              reply == Err(404, "User not found") && db.users == old(db.users)
            else
              var i := FindUser(old(db.users), caller).value;
              reply == Ok(200, "Profile updated successfully", Applied(old(db.users)[i], data)) &&
              db.users == old(db.users)[i := Applied(old(db.users)[i], data)]
  {
    var data := BuildUpdate(displayName, bio, status);
    if !UpdateValid(data) {
      return Err(500, "Failed to update profile");
    }
    var found := FindUser(db.users, caller);
    if found.None? {
      return Err(404, "User not found");
    }
    var u := Applied(db.users[found.value], data);
    ReplaceUserKeepsWellFormed(db.users, found.value, u);
    db.users := db.users[found.value := u];
    reply := Ok(200, "Profile updated successfully", u);
  }

  /** `updateStatus`: a status outside the enum is refused; otherwise the status
      and `lastSeen` are written. A missing user still gets 200, with `user: null`. */
  method UpdateStatus(db: Db, caller: UserId, status: Option<string>, now: int)
    returns (reply: Reply<Option<UserRecord>>)
    requires db.Valid()
    modifies db`users
    ensures db.Valid()
    ensures (status.None? || status.value !in Statuses) ==>
              reply == Err(400, "Invalid status") && db.users == old(db.users)
    ensures status.Some? && status.value in Statuses && FindUser(old(db.users), caller).None? ==>
              reply == Ok(200, "", None) && db.users == old(db.users)
    ensures status.Some? && status.value in Statuses && FindUser(old(db.users), caller).Some? ==>
              var i := FindUser(old(db.users), caller).value;
              var u := old(db.users)[i].(status := status.value, lastSeen := now);
              reply == Ok(200, "", Some(u)) && db.users == old(db.users)[i := u] &&
              u.status in Statuses
  {
    if status.None? || status.value !in Statuses {
      return Err(400, "Invalid status");
    }
    var found := FindUser(db.users, caller);
    if found.None? {
      return Ok(200, "", None);
    }
    var u := db.users[found.value].(status := status.value, lastSeen := now);
    ReplaceUserKeepsWellFormed(db.users, found.value, u);
    db.users := db.users[found.value := u];
    reply := Ok(200, "", Some(u));
  }

  /** `.limit(20)` on the search. */
  const SearchLimit: nat := 20

  /** The `$or` of `searchUsers`. `regexMatch(q, field)` is the
      case-insensitive regular-expression test of `q` against one stored
      string; it is a parameter because Mongo evaluates it. The clause on
      `name` tests a virtual that is never stored, so it never matches: only
      the username and the email are searched. */
  predicate Matches(q: string, u: UserRecord, regexMatch: (string, string) -> bool) {
    regexMatch(q, u.username) || regexMatch(q, u.email)
  }

  /** The users a search may return: not the caller, and matching the query. */
  function Candidates(users: seq<UserRecord>, caller: UserId, q: string,
                      regexMatch: (string, string) -> bool): seq<UserRecord>
  {
    Filter(users, (u: UserRecord) => u.id != caller && Matches(q, u, regexMatch))
  }

  /** `searchUsers`, in natural order. */
  function SearchUsers(users: seq<UserRecord>, caller: UserId, q: Option<string>,
                       regexMatch: (string, string) -> bool): (r: seq<UserRecord>)
    ensures !Truthy(q) ==> r == []
    ensures |r| <= SearchLimit
  {
    if !Truthy(q) then []
    else
      var all := Candidates(users, caller, q.value, regexMatch);
      all[..if |all| <= SearchLimit then |all| else SearchLimit]
  }

  /** The search answers nothing to an empty query; otherwise it returns at most
      20 users, in their stored order, never the caller, each matching the query,
      and every match when fewer than 20 come back. */
  lemma SearchUsersSpec(users: seq<UserRecord>, caller: UserId, q: Option<string>,
                        regexMatch: (string, string) -> bool)
    ensures var r := SearchUsers(users, caller, q, regexMatch);
            (!Truthy(q) ==> r == []) &&
            |r| <= SearchLimit &&
            IsSubseq(r, users) &&
            (forall i :: 0 <= i < |r| ==> r[i].id != caller && Truthy(q) && Matches(q.value, r[i], regexMatch)) &&
            (Truthy(q) && |r| < SearchLimit ==>
               forall u :: u in users && u.id != caller && Matches(q.value, u, regexMatch) ==> u in r)
  {
    if !Truthy(q) {
      EmptySubseq(users);
    } else {
      var all := Candidates(users, caller, q.value, regexMatch);
      var k := if |all| <= SearchLimit then |all| else SearchLimit;
      PrefixOfSubseq(all, users, k);
      assert k == |all| ==> all[..k] == all;
      forall i | 0 <= i < k ensures all[..k][i] == all[i] { }
    }
  }

  /** A user whose username and email do not match is never found, whatever
      their display name: the search cannot find anyone by display name. */
  lemma DisplayNameNotSearched(users: seq<UserRecord>, caller: UserId, q: Option<string>,
                               regexMatch: (string, string) -> bool, u: UserRecord)
    requires Truthy(q) && !regexMatch(q.value, u.username) && !regexMatch(q.value, u.email)
    ensures u !in SearchUsers(users, caller, q, regexMatch)
  {
    SearchUsersSpec(users, caller, q, regexMatch);
  }

  /** Code-point order on strings, Mongo's default string collation. */
  predicate StrLe(a: string, b: string)
    decreases |a|
  {
    a == [] || (b != [] && (a[0] < b[0] || (a[0] == b[0] && StrLe(a[1..], b[1..]))))
  }

  lemma {:induction false} StrLeTotal(a: string, b: string)
    ensures StrLe(a, b) || StrLe(b, a)
    decreases |a|
  {
    if a != [] && b != [] && a[0] == b[0] {
      StrLeTotal(a[1..], b[1..]);
    }
  }

  lemma {:induction false} StrLeTransitive(a: string, b: string, c: string)
    requires StrLe(a, b) && StrLe(b, c)
    ensures StrLe(a, c)
    decreases |a|
  {
    if a != [] && a[0] == b[0] && b[0] == c[0] {
      StrLeTransitive(a[1..], b[1..], c[1..]);
    }
  }

  /** `.sort({ displayName: 1 })`: a user without a displayName sorts first. */
  predicate DisplayNameLe(u: UserRecord, v: UserRecord) {
    u.displayName.None? || (v.displayName.Some? && StrLe(u.displayName.value, v.displayName.value))
  }

  lemma DisplayNameOrder()
    ensures Sorting.TotalPreorder((u: UserRecord, v: UserRecord) => DisplayNameLe(u, v))
  {
    forall u: UserRecord, v: UserRecord ensures DisplayNameLe(u, v) || DisplayNameLe(v, u) {
      if u.displayName.Some? && v.displayName.Some? {
        StrLeTotal(u.displayName.value, v.displayName.value);
      }
    }
    forall u: UserRecord, v: UserRecord, w: UserRecord | DisplayNameLe(u, v) && DisplayNameLe(v, w)
      ensures DisplayNameLe(u, w)
    {
      if u.displayName.Some? {
        StrLeTransitive(u.displayName.value, v.displayName.value, w.displayName.value);
      }
    }
  }

  /** `getAllUsers`: everyone but the caller, ascending by displayName. */
  function GetAllUsers(users: seq<UserRecord>, caller: UserId): (r: Reply<seq<UserRecord>>)
    ensures r.Ok? && r.status == 200
    ensures Sorting.Sorted(r.data, (u: UserRecord, v: UserRecord) => DisplayNameLe(u, v))
    ensures multiset(r.data) == multiset(Filter(users, (u: UserRecord) => u.id != caller))
    ensures forall u :: u in r.data <==> u in users && u.id != caller
  {
    var others := Filter(users, (u: UserRecord) => u.id != caller);
    var le := (u: UserRecord, v: UserRecord) => DisplayNameLe(u, v);
    DisplayNameOrder();
    Sorting.SortSorted(others, le);
    Sorting.SortPermutes(others, le);
    var sorted := Sorting.Sort(others, le);
    assert forall u :: u in sorted <==> u in multiset(sorted);
    Ok(200, "", sorted)
  }
}
