/**
 * The User schema and the store's `save` semantics: the `trim` and
 * `lowercase` setters, the `isVerified` default, the `required` and `unique`
 * rules, and the pre("save") hook that bcrypt-hashes a modified password.
 */
module UserModel {
  import opened Wrappers
  import opened JsText
  import opened Crypto

  /** The document id (`_id`), allocated by the store in increasing order. */
  type UserId = nat

  /** One User document. Absent optional paths are None. */
  datatype User = User(
    name: string,
    email: string,
    password: Secret,
    verificationToken: Option<string>,
    isVerified: bool,
    forgotpasswordToken: Option<Digest>,
    resetPasswordExpires: Option<int>)

  /** The document the setters produce: name trimmed, email lower-cased. */
  predicate Normalised(u: User) {
    IsTrimmed(u.name) && IsLower(u.email)
  }

  /** The `required: true` paths are all set; a required String path rejects "". */
  predicate HasRequired(u: User) {
    u.name != "" && u.email != "" && !u.password.IsEmpty()
  }

  /** What every stored document satisfies: normalised, complete, and its password hashed. */
  predicate IsStored(u: User) {
    Normalised(u) && HasRequired(u) && u.password.Bcrypt?
  }

  /**
   * new User({ name, email, password, verificationToken, isVerified }): the
   * setters run on assignment, and isVerified takes its default (false) when
   * the caller gives none.
   */
  function NewUser(name: string, email: string, password: string,
                   verificationToken: Option<string>, isVerified: Option<bool>): (u: User)
    ensures Normalised(u)
    ensures u.name == Trim(name) && u.email == Lower(email) && u.password == Plain(password)
    ensures u.verificationToken == verificationToken
    ensures u.isVerified <==> isVerified == Some(true)
    ensures u.forgotpasswordToken.None? && u.resetPasswordExpires.None?
  {
    LowerNormalises(email);
    User(Trim(name), Lower(email), Plain(password), verificationToken,
         if isVerified.Some? then isVerified.value else false, None, None)
  }

  /** A document read with .select("-password"): every path but the password. */
  datatype SafeUser = SafeUser(
    id: UserId,
    name: string,
    email: string,
    verificationToken: Option<string>,
    isVerified: bool,
    forgotpasswordToken: Option<Digest>,
    resetPasswordExpires: Option<int>)

  function WithoutPassword(id: UserId, u: User): SafeUser {
    SafeUser(id, u.name, u.email, u.verificationToken, u.isVerified, u.forgotpasswordToken, u.resetPasswordExpires)
  }

  /** Why a save was refused. */
  datatype SaveError =
    | ValidationError   // a required path is missing or empty
    | HashError         // bcrypt.hash failed inside the pre-save hook
    | DuplicateKey      // the unique index on email already holds this address

  /** The query filters the handlers and the session guard pass to findOne / findById. */
  datatype Filter =
    | ByEmail(email: string)                      // the address as the query holds it, already lower-cased
    | ByVerificationToken(token: string)
    | ByPendingReset(digest: Digest, now: int)   // { forgotpasswordToken, resetPasswordExpires: { $gt: now } }
    | ById(id: UserId)

  /** Whether document `id` holding `u` matches `f`. */
  predicate Matches(f: Filter, id: UserId, u: User) {
    match f
    case ByEmail(e) => u.email == e
    case ByVerificationToken(t) => u.verificationToken == Some(t)
    case ByPendingReset(d, now) =>
      u.forgotpasswordToken == Some(d) && u.resetPasswordExpires.Some? && u.resetPasswordExpires.value > now
    case ById(i) => id == i
  }

  /** No document matches `f`. */
  ghost predicate NoMatch(records: map<UserId, User>, f: Filter) {
    forall j :: j in records ==> !Matches(f, j, records[j])
  }

  /** `id` is the first document, in id order, that matches `f`. */
  ghost predicate IsFirstMatch(records: map<UserId, User>, f: Filter, id: UserId) {
    && id in records && Matches(f, id, records[id])
    && forall j :: j in records && j < id ==> !Matches(f, j, records[j])
  }

  /**
   * The filter for `findOne({ email })`: the query value is lower-cased like
   * the path it compares against.
   */
  function EmailQuery(email: string): (f: Filter)
    ensures f.ByEmail? && IsLower(f.email)
    ensures forall id, u :: Matches(f, id, u) <==> u.email == Lower(email)
  {
    LowerNormalises(email);
    ByEmail(Lower(email))
  }

  /** The unique index on email: no two documents share an address. */
  predicate UniqueEmails(records: map<UserId, User>) {
    forall a, b :: a in records && b in records && records[a].email == records[b].email ==> a == b
  }

  /** Writing `email` into document `id` (None: a new document) leaves the index unique. */
  predicate EmailFree(records: map<UserId, User>, id: Option<UserId>, email: string) {
    forall other :: other in records && records[other].email == email ==> id == Some(other)
  }

  /**
   * isModified("password"): always for a new document; for a loaded one,
   * when the value differs from the stored one (Mongoose marks a path only
   * when the assigned value is not deep-equal to the old).
   */
  predicate PasswordModified(records: map<UserId, User>, id: Option<UserId>, doc: User) {
    id.None? || id.value !in records || records[id.value].password != doc.password
  }

  /** The document the pre-save hook hands on: with a hashed password when it was modified. */
  function AfterHook(doc: User, modified: bool, salt: nat): User {
    if modified then doc.(password := Bcrypt(salt, doc.password)) else doc
  }

  /** The User collection. */
  class UserStore {
    var records: map<UserId, User>
    var nextId: UserId

    ghost predicate Valid()
      reads this
    {
      && (forall id :: id in records ==> id < nextId && IsStored(records[id]))
      && UniqueEmails(records)
    }

    constructor ()
      ensures Valid() && records == map[]
    {
      records := map[];
      nextId := 0;
    }

    /** User.findOne(f) (and findById): the first matching document in id order, or none. */
    method FindOne(f: Filter) returns (r: Option<UserId>)
      requires Valid()
      ensures r.None? <==> NoMatch(records, f)
      ensures r.Some? ==> IsFirstMatch(records, f, r.value)
    {
      var i := 0;
      while i < nextId
        invariant i <= nextId
        invariant forall j :: j in records && j < i ==> !Matches(f, j, records[j])
      {
        if i in records && Matches(f, i, records[i]) {
          return Some(i);
        }
        i := i + 1;
      }
      return None;
    }

    /**
     * doc.save(): validate the required paths, run the pre-save hook, enforce
     * the unique email index, then write the document (`id` None inserts a
     * new one under the next id). A failed save writes nothing.
     */
    method Save(id: Option<UserId>, doc: User, hook: HashEnv) returns (r: Result<UserId, SaveError>)
      requires Valid() && Normalised(doc)
      requires id.Some? ==> id.value in records
      modifies this
      ensures Valid()
      ensures r.Ok? <==>
                && HasRequired(doc) && !(PasswordModified(old(records), id, doc) && hook.fails)
                && EmailFree(old(records), id, doc.email)
      ensures r.Err? ==> records == old(records) && nextId == old(nextId)
      ensures r == Err(ValidationError) <==> !HasRequired(doc)
      ensures r == Err(HashError) <==>
                HasRequired(doc) && PasswordModified(old(records), id, doc) && hook.fails
      ensures r == Err(DuplicateKey) <==>
                && HasRequired(doc) && !(PasswordModified(old(records), id, doc) && hook.fails)
                && !EmailFree(old(records), id, doc.email)
      ensures r.Ok? ==>
                && r.value == (if id.Some? then id.value else old(nextId))
                && (id.None? ==> r.value !in old(records))
                && records == old(records)[r.value :=
                     AfterHook(doc, PasswordModified(old(records), id, doc), hook.salt)]
    {
      if !HasRequired(doc) {
        return Err(ValidationError);
      }
      var modified := PasswordModified(records, id, doc);
      if modified && hook.fails {
        return Err(HashError);
      }
      var stored := AfterHook(doc, modified, hook.salt);
      var holder := FindOne(ByEmail(doc.email));
      if holder.Some? && id != holder {
        return Err(DuplicateKey);
      }
      assert EmailFree(records, id, doc.email) by {
        forall other | other in records && records[other].email == doc.email
          ensures id == Some(other)
        {
          assert Matches(ByEmail(doc.email), other, records[other]);
        }
      }
      var target: UserId;
      if id.Some? {
        target := id.value;
      } else {
        target := nextId;
        nextId := nextId + 1;
      }
      assert IsStored(stored);
      records := records[target := stored];
      return Ok(target);
    }
  }

  /**
   * A save that leaves the password as it was stored does not rehash it, so
   * saves that only touch other paths keep the stored hash.
   */
  lemma UnmodifiedPasswordKept(records: map<UserId, User>, id: UserId, doc: User, salt: nat)
    requires id in records && doc.password == records[id].password
    ensures AfterHook(doc, PasswordModified(records, Some(id), doc), salt).password == records[id].password
  {
  }
}
