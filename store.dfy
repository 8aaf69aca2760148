/** The `users` collection behind the User model: the stored records, the
    queries the handlers issue (`findOne`, `findById`), the unique index on
    `email`, and `save()` (validation, the pre-save hook, then the write). */
module Store {
  import opened Common
  import opened Primitives
  import opened UserModel

  /** The filter documents the handlers pass to `findOne` / `findById`. */
  datatype Query =
    | ByEmail(email: string)                  // { email }
    | ById(id: AccountId)                     // findById(id)
    | ByResetToken(hash: string, now: Time)   // { resetPasswordToken: hash, resetPasswordExpires: { $gt: now } }
    | ByRememberMeToken(hash: string)         // { rememberMeToken: hash }

  /** Whether a stored record satisfies a filter. The email in a filter is
      cast with the schema's setters before it is compared. */
  predicate Matches(q: Query, r: AccountRecord) {
    match q
    case ByEmail(e) => r.email == Normalize(e)
    case ById(i) => r.id == i
    case ByResetToken(h, now) =>
      r.resetPasswordToken == Some(h) && r.resetPasswordExpires.Some? && r.resetPasswordExpires.value > now
    case ByRememberMeToken(h) => r.rememberMeToken == Some(h)
  }

  /** `findOne(filter)` over the collection in its natural order: the index
      of the first matching record, or `None` exactly when none matches. */
  function FindOne(accounts: seq<AccountRecord>, q: Query): (k: Option<nat>)
    ensures k.Some? ==> k.value < |accounts| && Matches(q, accounts[k.value])
    ensures k.Some? ==> forall j :: 0 <= j < k.value ==> !Matches(q, accounts[j])
    ensures k.None? <==> forall j :: 0 <= j < |accounts| ==> !Matches(q, accounts[j])
    decreases |accounts|
  {
    if accounts == [] then None
    else if Matches(q, accounts[0]) then Some(0)
    else match FindOne(accounts[1..], q)
      case None => None
      case Some(j) => Some(j + 1)
  }

  /** The unique indexes: no two records share an `_id` or an `email`. */
  predicate Unique(accounts: seq<AccountRecord>) {
    forall i, j :: 0 <= i < j < |accounts| ==>
      accounts[i].id != accounts[j].id && accounts[i].email != accounts[j].email
  }

  /** The write that would violate the unique email index: another record
      already holds `email`. */
  predicate EmailTaken(accounts: seq<AccountRecord>, id: AccountId, email: string) {
    exists j :: 0 <= j < |accounts| && accounts[j].email == email && accounts[j].id != id
  }

  /** The write `save()` performs: replace the record with the same `_id`,
      or insert a new one at the end. */
  function Upsert(accounts: seq<AccountRecord>, r: AccountRecord): seq<AccountRecord> {
    match FindOne(accounts, ById(r.id))
    case Some(k) => accounts[k := r]
    case None => accounts + [r]
  }

  /** With unique ids, looking a stored record's id up finds that record. */
  lemma FindOwnId(accounts: seq<AccountRecord>, k: nat)
    requires Unique(accounts) && k < |accounts|
    ensures FindOne(accounts, ById(accounts[k].id)) == Some(k)
  {
  }

  /** Re-saving a loaded record under its own id and email cannot collide
      with the unique index and replaces that record in place. */
  lemma ResaveInPlace(accounts: seq<AccountRecord>, k: nat, r: AccountRecord)
    requires Unique(accounts) && k < |accounts|
    requires r.id == accounts[k].id && r.email == accounts[k].email
    ensures !EmailTaken(accounts, r.id, r.email)
    ensures Upsert(accounts, r) == accounts[k := r]
    ensures Unique(accounts[k := r])
  {
    FindOwnId(accounts, k);
  }

  /** A record that is the only match for a filter is the one found. */
  lemma OnlyMatch(accounts: seq<AccountRecord>, q: Query, k: nat)
    requires k < |accounts| && Matches(q, accounts[k])
    requires forall j :: 0 <= j < |accounts| && j != k ==> !Matches(q, accounts[j])
    ensures FindOne(accounts, q) == Some(k)
  {
  }

  /** A record appended to a collection where nothing matched is found at
      the end. */
  lemma FindAppended(accounts: seq<AccountRecord>, r: AccountRecord, q: Query)
    requires FindOne(accounts, q).None? && Matches(q, r)
    ensures FindOne(accounts + [r], q) == Some(|accounts|)
  {
    OnlyMatch(accounts + [r], q, |accounts|);
  }

  /** The collection, with the id generator for new documents. The crypto
      primitives the pre-save hook needs are fixed when it is built. */
  class Db {
    var accounts: seq<AccountRecord>
    var nextId: AccountId
    const crypto: Crypto

    ghost predicate Valid()
      reads this
    {
      && Unique(accounts)
      && (forall i :: 0 <= i < |accounts| ==> accounts[i].email != "" && accounts[i].id < nextId)
    }

    constructor (c: Crypto)
      ensures Valid() && accounts == [] && nextId == 0 && crypto == c
    {
      accounts, nextId, crypto := [], 0, c;
    }

    /** A fresh `_id` for a new document. */
    method NewId() returns (id: AccountId)
      requires Valid()
      modifies this
      ensures Valid()
      ensures id == old(nextId) && nextId == old(nextId) + 1 && accounts == old(accounts)
    {
      id := nextId;
      nextId := nextId + 1;
    }

    /** `doc.save()`, with the salt the hook would generate passed in.
        Validation runs first and a failure stores nothing and leaves the
        document as it was. Then the pre-save hook runs; then the write,
        which fails if another record already holds the email. A successful
        save stores the document's (hashed) record and clears its
        modified flag. */
    method Save(doc: Account, salt: string) returns (ok: bool)
      requires Valid() && doc.id < nextId
      modifies this, doc
      ensures Valid() && nextId == old(nextId)
      ensures ok <==> old(doc.PassesValidation()) && !EmailTaken(old(accounts), doc.id, old(doc.email))
      ensures old(doc.PassesValidation()) ==>
                doc.Record() == AfterPreSave(old(doc.Record()), old(doc.passwordModified), salt, crypto)
      ensures !old(doc.PassesValidation()) ==> doc.Record() == old(doc.Record())
      ensures ok ==> accounts == Upsert(old(accounts), doc.Record()) && !doc.passwordModified
      ensures !ok ==> accounts == old(accounts) && doc.passwordModified == old(doc.passwordModified)
    {
      if !doc.PassesValidation() {
        return false;
      }
      doc.PreSave(salt, crypto);
      if EmailTaken(accounts, doc.id, doc.email) {
        return false;
      }
      var r := doc.Record();
      var found := FindOne(accounts, ById(r.id));
      assert forall j :: 0 <= j < |accounts| && accounts[j].id != r.id ==> accounts[j].email != r.email;
      accounts := Upsert(accounts, r);
      doc.passwordModified := false;
      ok := true;
    }

    /** Saving a loaded document whose password was not set again: it
        passes validation, keeps its record as it is and replaces the
        stored record with the same id in place. */
    method Resave(doc: Account, ghost k: nat)
      requires Valid() && k < |accounts| && !doc.passwordModified
      requires doc.id == accounts[k].id && doc.email == accounts[k].email
      modifies this, doc
      ensures Valid() && nextId == old(nextId)
      ensures doc.Record() == old(doc.Record()) && !doc.passwordModified
      ensures accounts == old(accounts)[k := doc.Record()]
    {
      ResaveInPlace(accounts, k, doc.Record());
      var saved := Save(doc, "");
    }
  }
}
