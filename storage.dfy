/**
 * The document store the routes talk to through their Mongoose models, kept
 * abstract: one collection per resource type, each document carrying the id
 * the storage assigned it and the owner (`user`) it was created for.
 *
 * Failures of the storage round trips are an input: a `Fault` names which
 * call of a handler fails (counting that handler's storage calls from 0) and
 * how. Casting a path parameter to an ObjectId is the collection's
 * `castable` predicate, of which only one thing is known: a 24-digit
 * hexadecimal id always casts, in either case, to the ObjectId its digits
 * spell. Stored ids are kept in the lower-case text form of an ObjectId.
 */
module Storage {
  import opened ObjectIds

  type Id = string
  type OwnerId = string

  datatype Option<T> = None | Some(value: T)

  /** A stored document: its owner (the `user` field) and its own fields. */
  datatype Doc<R> = Doc(owner: OwnerId, value: R)

  /** How a storage round trip can fail; `DuplicateKey` is a unique-index violation. */
  datatype StorageFailure = DuplicateKey | Unavailable

  /** What a handler's `catch` receives. */
  datatype Thrown = CastError | StoreFailed(failure: StorageFailure)

  /** Which storage call of a handler fails, if any. */
  datatype Fault = NoFault | FailsAt(call: nat, failure: StorageFailure)

  /** The failure the given storage call meets. */
  function FailureAt(fault: Fault, call: nat): (r: Option<StorageFailure>)
    ensures r.Some? <==> fault.FailsAt? && fault.call == call
    ensures r.Some? ==> r.value == fault.failure
  {
    if fault.FailsAt? && fault.call == call then Some(fault.failure) else None
  }

  /** The outcome of one awaited storage call. */
  datatype Attempt<T> = Done(value: T) | Threw(error: Thrown)

  /** The outcome of `findOne({ user, _id })`. */
  datatype LookupResult<R> = Found(doc: Doc<R>) | Absent | CastFailed | LookupFailed(failure: StorageFailure)

  /** `find({ user: owner })`: the owner's documents and no others. */
  function OwnedBy<R>(docs: map<Id, Doc<R>>, owner: OwnerId): (mine: map<Id, Doc<R>>)
    ensures forall id :: id in mine <==> id in docs && docs[id].owner == owner
    ensures forall id :: id in mine ==> mine[id] == docs[id]
  {
    map id | id in docs && docs[id].owner == owner :: docs[id]
  }

  /** The document `id` exists and belongs to `owner`: what `{ user: owner, _id: id }` selects. */
  predicate Owns<R>(docs: map<Id, Doc<R>>, owner: OwnerId, id: Id) {
    id in docs && docs[id].owner == owner
  }

  /** `findOne({ user: owner, <key>: value })` finds a document. */
  predicate HasKey<R>(docs: map<Id, Doc<R>>, owner: OwnerId, key: R -> string, value: string) {
    exists id :: id in docs && docs[id].owner == owner && key(docs[id].value) == value
  }

  /** No owner has two documents with the same natural key. */
  ghost predicate KeyUnique<R>(docs: map<Id, Doc<R>>, key: R -> string) {
    forall i, j :: i in docs && j in docs && i != j && docs[i].owner == docs[j].owner
      ==> key(docs[i].value) != key(docs[j].value)
  }

  /**
   * Inserting a document whose natural key its owner does not hold yet keeps
   * the natural keys unique.
   */
  lemma InsertKeepsKeyUnique<R>(docs: map<Id, Doc<R>>, key: R -> string, id: Id, d: Doc<R>)
    requires KeyUnique(docs, key) && id !in docs
    requires !HasKey(docs, d.owner, key, key(d.value))
    ensures KeyUnique(docs[id := d], key)
  {
    var after := docs[id := d];
    forall i, j | i in after && j in after && i != j && after[i].owner == after[j].owner
      ensures key(after[i].value) != key(after[j].value)
    {
      if i == id {
        assert j in docs && docs[j].owner == d.owner;
      } else if j == id {
        assert i in docs && docs[i].owner == d.owner;
      }
    }
  }

  /**
   * Overwriting a document with fields whose natural key another document of
   * the same owner already holds breaks uniqueness: what an update that does
   * not re-check the key allows.
   */
  lemma OverwriteCanDuplicateKey<R>(docs: map<Id, Doc<R>>, key: R -> string, id: Id, other: Id, d: Doc<R>)
    requires Owns(docs, d.owner, id) && Owns(docs, d.owner, other) && id != other
    requires key(docs[other].value) == key(d.value)
    ensures !KeyUnique(docs[id := d], key)
  {
    var after := docs[id := d];
    assert after[other] == docs[other] && after[id] == d;
    assert after[id].owner == after[other].owner && key(after[id].value) == key(after[other].value);
  }

  /** Records of other owners are untouched and none of theirs appears. */
  ghost predicate OthersUnchanged<R>(before: map<Id, Doc<R>>, after: map<Id, Doc<R>>, owner: OwnerId) {
    (forall id :: id in before && before[id].owner != owner ==> id in after && after[id] == before[id])
    && (forall id :: id in after && after[id].owner != owner ==> id in before)
  }

  /** `$set` of a patch on one document, appearing as a replacement of its fields. */
  lemma SetKeepsOthers<R>(docs: map<Id, Doc<R>>, id: Id, owner: OwnerId, value: R)
    requires Owns(docs, owner, id)
    ensures OthersUnchanged(docs, docs[id := Doc(owner, value)], owner)
    ensures OwnedBy(docs[id := Doc(owner, value)], owner).Keys == OwnedBy(docs, owner).Keys
  {
  }

  /** Removing one of the owner's documents leaves other owners' documents alone. */
  lemma RemoveKeepsOthers<R>(docs: map<Id, Doc<R>>, owner: OwnerId, id: Id)
    requires Owns(docs, owner, id)
    ensures OthersUnchanged(docs, docs - {id}, owner)
  {
  }

  /** Removing a document keeps the natural keys unique. */
  lemma RemoveKeepsKeyUnique<R>(docs: map<Id, Doc<R>>, key: R -> string, id: Id)
    requires KeyUnique(docs, key)
    ensures KeyUnique(docs - {id}, key)
  {
  }

  class Collection<R> {
    /** Whether Mongoose casts a path parameter to an ObjectId without throwing. */
    const castable: string -> bool
    /** The documents, by id. */
    var docs: map<Id, Doc<R>>

    ghost predicate Valid()
      reads this
    {
      && (forall id :: id in docs ==> IsObjectIdText(id))
      && (forall s :: IsHex24(s) ==> castable(s))
    }

    constructor (castable: string -> bool)
      requires forall s :: IsHex24(s) ==> castable(s)
      ensures Valid() && docs == map[] && this.castable == castable
    {
      this.castable := castable;
      docs := map[];
    }

    /** `findOne({ user: owner, <key>: value })`, answering whether a document matched. */
    method FindByKey(owner: OwnerId, key: R -> string, value: string, fail: Option<StorageFailure>)
      returns (r: Attempt<bool>)
      ensures fail.Some? ==> r == Threw(StoreFailed(fail.value))
      ensures fail.None? ==> r.Done? && (r.value <==> HasKey(docs, owner, key, value))
    {
      if fail.Some? {
        return Threw(StoreFailed(fail.value));
      }
      r := Done(HasKey(docs, owner, key, value));
    }

    /**
     * `findOne({ user: owner, _id: raw })`: the cast of `raw` happens first,
     * and a hexadecimal id matches the stored id whatever the case of its
     * letters.
     */
    method FindById(owner: OwnerId, raw: string, fail: Option<StorageFailure>)
      returns (r: LookupResult<R>)
      requires Valid()
      ensures IsHex24(raw) ==> !r.CastFailed?
      ensures r.CastFailed? <==> !castable(raw)
      ensures castable(raw) && fail.Some? ==> r == LookupFailed(fail.value)
      ensures castable(raw) && fail.None? ==>
        r == if IsHex24(raw) && Owns(docs, owner, CanonicalId(raw)) then Found(docs[CanonicalId(raw)]) else Absent
    {
      if !castable(raw) {
        return CastFailed;
      }
      if fail.Some? {
        return LookupFailed(fail.value);
      }
      if IsHex24(raw) && Owns(docs, owner, CanonicalId(raw)) {
        r := Found(docs[CanonicalId(raw)]);
      } else {
        r := Absent;
      }
    }

    /** `find({ user: owner })`. */
    method FindAll(owner: OwnerId, fail: Option<StorageFailure>)
      returns (r: Attempt<map<Id, Doc<R>>>)
      ensures fail.Some? ==> r == Threw(StoreFailed(fail.value))
      ensures fail.None? ==> r == Done(OwnedBy(docs, owner))
    {
      if fail.Some? {
        return Threw(StoreFailed(fail.value));
      }
      r := Done(OwnedBy(docs, owner));
    }

    /** `new Model({ user, ...fields }).save()`; the storage assigns the fresh id `id`. */
    method Insert(id: Id, d: Doc<R>, fail: Option<StorageFailure>) returns (err: Option<Thrown>)
      requires Valid() && IsObjectIdText(id) && id !in docs
      modifies this
      ensures Valid()
      ensures err == if fail.Some? then Some(StoreFailed(fail.value)) else None
      ensures docs == if err.None? then old(docs)[id := d] else old(docs)
    {
      if fail.Some? {
        return Some(StoreFailed(fail.value));
      }
      docs := docs[id := d];
      err := None;
    }

    /**
     * `findOneAndUpdate({ user: owner, _id: id }, { $set: fields }, { new: true })`
     * on a document the handler has just found: `apply` is the `$set`.
     */
    method Update(owner: OwnerId, id: Id, apply: R -> R, fail: Option<StorageFailure>)
      returns (r: Attempt<Doc<R>>)
      requires Valid() && Owns(docs, owner, id)
      modifies this
      ensures Valid()
      ensures fail.Some? ==> r == Threw(StoreFailed(fail.value)) && docs == old(docs)
      ensures fail.None? ==>
        r == Done(Doc(owner, apply(old(docs)[id].value))) && docs == old(docs)[id := r.value]
    {
      if fail.Some? {
        return Threw(StoreFailed(fail.value));
      }
      var d := Doc(owner, apply(docs[id].value));
      docs := docs[id := d];
      r := Done(d);
    }

    /** `doc.save()` of a document already stored with the same fields: only the round trip. */
    method Resave(fail: Option<StorageFailure>) returns (err: Option<Thrown>)
      ensures err == if fail.Some? then Some(StoreFailed(fail.value)) else None
    {
      if fail.Some? {
        return Some(StoreFailed(fail.value));
      }
      err := None;
    }

    /** `doc.remove()` of a loaded document. */
    method Remove(id: Id, fail: Option<StorageFailure>) returns (err: Option<Thrown>)
      requires Valid()
      modifies this
      ensures Valid()
      ensures err == if fail.Some? then Some(StoreFailed(fail.value)) else None
      ensures docs == if err.None? then old(docs) - {id} else old(docs)
    {
      if fail.Some? {
        return Some(StoreFailed(fail.value));
      }
      docs := docs - {id};
      err := None;
    }
  }
}
