/** The User schema of server/src/models/User.js: field bounds, the status
    enum, the two pre-save hooks (password hashing, displayName default), the
    `name` and `isOnline` virtuals and the password-free JSON form. */
module UserModel {
  import opened Common

  const Statuses: set<string> := {"online", "offline", "away", "busy"}
  const DefaultStatus: string := "offline"
  const UsernameMinLength: nat := 3
  const UsernameMaxLength: nat := 30
  const PasswordMinLength: nat := 6
  const DisplayNameMaxLength: nat := 50
  const BioMaxLength: nat := 200

  datatype Avatar = Avatar(url: string, publicId: string)

  datatype UserRecord = UserRecord(
    id: UserId,
    username: string,
    email: string,
    password: string,
    displayName: Option<string>,
    avatar: Avatar,
    bio: string,
    status: string,
    lastSeen: int,
    isVerified: bool)

  /** `new User({...})`: username and displayName are trimmed, the email is
      lower-cased and trimmed; the other fields take their defaults. */
  function NewUser(id: UserId, username: string, email: string, password: string,
                   displayName: Option<string>, now: int): (u: UserRecord)
    ensures u.username == Trim(username) && u.password == password
    ensures u.status == DefaultStatus && u.status in Statuses
    ensures u.bio == "" && u.avatar == Avatar("", "") && !u.isVerified && u.lastSeen == now
    ensures u.email == Trim(ToLower(email))
    ensures displayName.Some? <==> u.displayName.Some?
    ensures displayName.Some? ==> u.displayName.value == Trim(displayName.value)
  {
    UserRecord(id, Trim(username), Trim(ToLower(email)), password,
               if displayName.Some? then Some(Trim(displayName.value)) else None,
               Avatar("", ""), "", DefaultStatus, now, false)
  }

  /** The stored email holds no ASCII capital and no surrounding whitespace,
      and addresses that differ only in ASCII case are stored alike. */
  lemma StoredEmailNormalised(id: UserId, username: string, email: string, other: string, password: string,
                              displayName: Option<string>, now: int)
    ensures var e := NewUser(id, username, email, password, displayName, now).email;
            (forall i :: 0 <= i < |e| ==> !('A' <= e[i] <= 'Z')) &&
            (e == [] || (!IsJsSpace(e[0]) && !IsJsSpace(e[|e| - 1])))
    ensures ToLower(email) == ToLower(other) ==>
              NewUser(id, username, email, password, displayName, now).email ==
              NewUser(id, username, other, password, displayName, now).email
  {
    var lower := ToLower(email);
    NoCapitalsAfterLower(email);
    var start := TrimIsSlice(lower);
    NoCapitalsInSlice(lower, start, start + |Trim(lower)|);
  }

  lemma NoCapitalsAfterLower(s: string)
    ensures forall i :: 0 <= i < |ToLower(s)| ==> !('A' <= ToLower(s)[i] <= 'Z')
  {
    var r := ToLower(s);
    forall i | 0 <= i < |r| ensures !('A' <= r[i] <= 'Z') {
      if 'A' <= s[i] <= 'Z' {
        assert r[i] as int == s[i] as int + 32;
      }
    }
  }

  lemma NoCapitalsInSlice(s: string, lo: nat, hi: nat)
    requires lo <= hi <= |s| && forall i :: 0 <= i < |s| ==> !('A' <= s[i] <= 'Z')
    ensures forall i :: 0 <= i < hi - lo ==> !('A' <= s[lo..hi][i] <= 'Z')
  {
    forall i | 0 <= i < hi - lo ensures !('A' <= s[lo..hi][i] <= 'Z') {
      assert s[lo..hi][i] == s[lo + i];
    }
  }

  /** `/^\S+@\S+\.\S+$/` */
  predicate EmailShape(s: string) {
    (forall i :: 0 <= i < |s| ==> !IsJsSpace(s[i])) &&
    exists i, j :: 1 <= i && i + 2 <= j && j + 2 <= |s| && s[i] == '@' && s[j] == '.'
  }

  /** The schema validators, which run before the pre-save hooks; lengths
      are counted in UTF-16 code units. */
  predicate FieldsValid(u: UserRecord) {
    UsernameMinLength <= Utf16Length(u.username) <= UsernameMaxLength &&
    u.email != "" && EmailShape(u.email) &&
    Utf16Length(u.password) >= PasswordMinLength &&
    (u.displayName.Some? ==> Utf16Length(u.displayName.value) <= DisplayNameMaxLength) &&
    Utf16Length(u.bio) <= BioMaxLength &&
    u.status in Statuses
  }

  /** The second pre-save hook: an empty displayName becomes the username. */
  function WithDefaultDisplayName(u: UserRecord): (r: UserRecord)
    ensures Truthy(u.displayName) ==> r == u
    ensures !Truthy(u.displayName) ==> r == u.(displayName := Some(u.username))
  {
    if Truthy(u.displayName) then u else u.(displayName := Some(u.username))
  }

  /** The `name` virtual: `displayName || username`. */
  function Name(u: UserRecord): (n: string)
    ensures Truthy(u.displayName) ==> n == u.displayName.value
    ensures !Truthy(u.displayName) ==> n == u.username
  {
    if Truthy(u.displayName) then u.displayName.value else u.username
  }

  /** The `isOnline` virtual. */
  predicate IsOnline(u: UserRecord) {
    u.status == "online"
  }

  /** After the displayName hook, `name` is the stored displayName, and for
      a non-empty username that displayName is non-empty. */
  lemma NameAfterDefault(u: UserRecord)
    ensures Name(WithDefaultDisplayName(u)) == WithDefaultDisplayName(u).displayName.value
    ensures u.username != "" ==> Truthy(WithDefaultDisplayName(u).displayName)
  {
  }

  /** `toJSON`: every stored field but the password, plus the virtuals. */
  datatype UserJson = UserJson(
    id: UserId,
    username: string,
    email: string,
    displayName: Option<string>,
    avatar: Avatar,
    bio: string,
    status: string,
    lastSeen: int,
    isVerified: bool,
    name: string,
    isOnline: bool)

  function ToJson(u: UserRecord): (j: UserJson)
    ensures j.id == u.id && j.username == u.username && j.email == u.email
    ensures j.displayName == u.displayName && j.bio == u.bio && j.status == u.status
    ensures j.name == Name(u) && (j.isOnline <==> u.status == "online")
  {
    UserJson(u.id, u.username, u.email, u.displayName, u.avatar, u.bio, u.status,
             u.lastSeen, u.isVerified, Name(u), IsOnline(u))
  }

  datatype UserSaveError = ValidationFailed | HashFailed

  /** A user document being saved; the hooks assign its fields in place. */
  class UserDocument {
    var fields: UserRecord
    /** `this.isModified('password')` */
    var passwordModified: bool

    /** A new document: every path, the password included, counts as modified. */
    constructor (u: UserRecord)
      ensures fields == u && passwordModified
    {
      fields := u;
      passwordModified := true;
    }

    /** `user.password = p` */
    method SetPassword(p: string)
      modifies this
      ensures fields == old(fields).(password := p) && passwordModified
    {
      fields := fields.(password := p);
      passwordModified := true;
    }

    /** `user.save()`: validation, then the hashing hook (which rehashes only a
        modified password; `hash` is bcrypt's output or its failure), then the
        displayName hook. */
    method Save(hash: Option<string>) returns (err: Option<UserSaveError>)
      modifies this
      ensures !FieldsValid(old(fields)) ==>
                err == Some(ValidationFailed) && fields == old(fields) && passwordModified == old(passwordModified)
      ensures FieldsValid(old(fields)) && old(passwordModified) && hash.None? ==>
                err == Some(HashFailed) && fields == old(fields) && passwordModified == old(passwordModified)
      ensures FieldsValid(old(fields)) && (old(passwordModified) ==> hash.Some?) ==>
                err.None? && !passwordModified &&
                fields == WithDefaultDisplayName(
                  if old(passwordModified) then old(fields).(password := hash.value) else old(fields))
      ensures err.None? && !old(passwordModified) ==> fields.password == old(fields).password
    {
      if !FieldsValid(fields) {
        return Some(ValidationFailed);
      }
      if passwordModified {
        if hash.None? {
          return Some(HashFailed);
        }
        fields := fields.(password := hash.value);
      }
      if !Truthy(fields.displayName) {
        fields := fields.(displayName := Some(fields.username));
      }
      passwordModified := false;
      err := None;
    }
  }
}
