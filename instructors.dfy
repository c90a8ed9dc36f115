/**
 * The instructor routes: POST `/`, PUT `/:id`, GET `/`, GET `/:id` and
 * DELETE `/:id`, each scoped to the authenticated owner.
 */
module InstructorRoutes {
  import opened ObjectIds
  import opened Text
  import opened Validation
  import opened Storage
  import opened Api

  /** An instructor document's own fields (the `date` default is left out). */
  datatype Instructor = Instructor(name: string, inn: string, categories: seq<string>)

  /** `instructorFields`: the fields the request supplied, already normalised. */
  datatype InstructorFields = InstructorFields(name: Option<string>, inn: Option<string>, categories: Option<seq<string>>)

  const Rules: seq<Rule> := [
    Rule("name", "Name is required"),
    Rule("inn", "INN  is required"),
    Rule("categories", "Categories is required")
  ]

  const AlreadyExists: string := "Instructor already exists"
  const NotFound: string := "Instructor not found"
  const NoneForCompany: string := "There are no instructors for this company"
  const Removed: string := "Instructor removed"

  /** The natural key: the taxpayer number. */
  function Inn(instructor: Instructor): string {
    instructor.inn
  }

  /** The instructor a request describes, as the handlers store it. */
  function Normalised(body: Body): Instructor {
    Instructor(Field(body, "name"), ToUpperAscii(Field(body, "inn")), NormalizeCategories(Field(body, "categories")))
  }

  /**
   * What every stored instructor satisfies: required fields set, `inn`
   * upper-cased, and at least one category, each already normalised.
   */
  predicate WellFormed(instructor: Instructor) {
    && instructor.name != "" && instructor.inn != "" && IsUpperNormal(instructor.inn)
    && |instructor.categories| >= 1
    && forall i :: 0 <= i < |instructor.categories| ==> CategoryCode(instructor.categories[i]) == instructor.categories[i]
  }

  ghost predicate AllWellFormed(docs: map<Id, Doc<Instructor>>) {
    forall id :: id in docs ==> WellFormed(docs[id].value)
  }

  /**
   * Storing a well-formed instructor under a fresh id or one of the owner's ids
   * keeps every instructor well formed and leaves other owners' instructors alone.
   */
  lemma StoreKeepsWellFormed(docs: map<Id, Doc<Instructor>>, owner: OwnerId, id: Id, instructor: Instructor)
    requires AllWellFormed(docs) && WellFormed(instructor)
    requires id in docs ==> docs[id].owner == owner
    ensures AllWellFormed(docs[id := Doc(owner, instructor)])
    ensures OthersUnchanged(docs, docs[id := Doc(owner, instructor)], owner)
  {
  }

  /** Removing a record keeps every remaining record well formed. */
  lemma RemoveKeepsWellFormed(docs: map<Id, Doc<Instructor>>, id: Id)
    requires AllWellFormed(docs)
    ensures AllWellFormed(docs - {id})
  {
  }

  /** The three checks pass exactly when name, inn and categories are all non-empty. */
  lemma RulesMeaning(body: Body)
    ensures Satisfies(body, Rules) <==> Present(body, "name") && Present(body, "inn") && Present(body, "categories")
  {
    assert Rules[0].field == "name" && Rules[1].field == "inn" && Rules[2].field == "categories";
  }

  /**
   * A valid request describes a well-formed instructor: the name as given,
   * `inn` upper-cased, one category per comma-separated item, in order.
   */
  lemma NormalisedWellFormed(body: Body)
    requires Satisfies(body, Rules)
    ensures WellFormed(Normalised(body))
    ensures Normalised(body).name == body["name"]
    ensures Normalised(body).inn == ToUpperAscii(body["inn"])
    ensures |Normalised(body).categories| == Count(Field(body, "categories"), ',') + 1
  {
    RulesMeaning(body);
    UpperIsNormal(body["inn"]);
    var s := body["categories"];
    forall i | 0 <= i < |NormalizeCategories(s)|
      ensures CategoryCode(NormalizeCategories(s)[i]) == NormalizeCategories(s)[i]
    {
      NormalizedCodesAreStable(s, i);
    }
  }

  /** `{ $set: instructorFields }`: each supplied field replaces the stored one. */
  function SetFields(instructor: Instructor, fields: InstructorFields): Instructor {
    Instructor(
      if fields.name.Some? then fields.name.value else instructor.name,
      if fields.inn.Some? then fields.inn.value else instructor.inn,
      if fields.categories.Some? then fields.categories.value else instructor.categories)
  }

  /** Fields left out of the patch keep their stored value; a complete patch ignores it. */
  lemma SetFieldsOnlySupplied(instructor: Instructor, other: Instructor, fields: InstructorFields)
    ensures fields == InstructorFields(None, None, None) ==> SetFields(instructor, fields) == instructor
    ensures fields.name.None? ==> SetFields(instructor, fields).name == instructor.name
    ensures fields.inn.None? ==> SetFields(instructor, fields).inn == instructor.inn
    ensures fields.categories.None? ==> SetFields(instructor, fields).categories == instructor.categories
    ensures fields.name.Some? && fields.inn.Some? && fields.categories.Some? ==>
      SetFields(instructor, fields) == SetFields(other, fields)
  {
  }

  /** Builds `instructorFields` field by field, as both POST and PUT do. */
  method CollectFields(body: Body) returns (fields: InstructorFields)
    ensures fields.name == if Present(body, "name") then Some(body["name"]) else None
    ensures fields.inn == if Present(body, "inn") then Some(ToUpperAscii(body["inn"])) else None
    ensures fields.categories == if Present(body, "categories") then Some(NormalizeCategories(body["categories"])) else None
    ensures Satisfies(body, Rules) ==> forall i :: SetFields(i, fields) == Normalised(body)
  {
    fields := InstructorFields(None, None, None);
    if Present(body, "name") {
      fields := fields.(name := Some(body["name"]));
    }
    if Present(body, "inn") {
      fields := fields.(inn := Some(ToUpperAscii(body["inn"])));
    }
    if Present(body, "categories") {
      fields := fields.(categories := Some(NormalizeCategories(body["categories"])));
    }
    RulesMeaning(body);
  }

  /**
   * POST `/`. The duplicate pre-check looks for the request's `inn` as sent,
   * while the instructor is stored with `inn` upper-cased; every exception
   * is a server error.
   */
  method Create(instructors: Collection<Instructor>, owner: OwnerId, body: Body, newId: Id, fault: Fault)
    returns (r: Response<Instructor>)
    requires instructors.Valid() && AllWellFormed(instructors.docs)
    requires IsObjectIdText(newId) && newId !in instructors.docs
    modifies instructors
    ensures instructors.Valid() && AllWellFormed(instructors.docs)
    ensures OthersUnchanged(old(instructors.docs), instructors.docs, owner)
    ensures instructors.docs ==
      if r.status == 200 then old(instructors.docs)[newId := Doc(owner, Normalised(body))] else old(instructors.docs)
    ensures !Satisfies(body, Rules) ==> r == Rejected(body, Rules)
    ensures Satisfies(body, Rules) && FailureAt(fault, 0).Some? ==> r == ServerFailure()
    ensures Satisfies(body, Rules) && FailureAt(fault, 0).None? ==>
      if HasKey(old(instructors.docs), owner, Inn, Field(body, "inn")) then
        r == Response(400, Message(AlreadyExists))
      else if FailureAt(fault, 1).Some? then
        r == ServerFailure()
      else
        r == Response(200, One(newId, Doc(owner, Normalised(body))))
  {
    var errors := Validate(body, Rules);
    if errors != [] {
      return Response(400, Invalid(errors));
    }
    var fields := CollectFields(body);
    RulesMeaning(body);
    NormalisedWellFormed(body);

    var found := instructors.FindByKey(owner, Inn, body["inn"], FailureAt(fault, 0));
    if found.Threw? {
      return ServerFailure();
    }
    if found.value {
      return Response(400, Message(AlreadyExists));
    }
    var instructor := Instructor(fields.name.value, fields.inn.value, fields.categories.value);
    assert instructor == Normalised(body);
    StoreKeepsWellFormed(instructors.docs, owner, newId, instructor);
    var err := instructors.Insert(newId, Doc(owner, instructor), FailureAt(fault, 1));
    if err.Some? {
      return ServerFailure();
    }
    r := Response(200, One(newId, Doc(owner, instructor)));
  }

  /**
   * PUT `/:id`. The lookup runs before the id-format check; an id that does
   * not cast reaches the `catch`, which answers 404 here.
   */
  method Update(instructors: Collection<Instructor>, owner: OwnerId, id: string, body: Body, fault: Fault)
    returns (r: Response<Instructor>)
    requires instructors.Valid() && AllWellFormed(instructors.docs)
    modifies instructors
    ensures instructors.Valid() && AllWellFormed(instructors.docs)
    ensures OthersUnchanged(old(instructors.docs), instructors.docs, owner)
    ensures !Satisfies(body, Rules) ==> r == Rejected(body, Rules) && instructors.docs == old(instructors.docs)
    ensures Satisfies(body, Rules) && !instructors.castable(id) ==>
      r == Response(404, Message(NotFound)) && instructors.docs == old(instructors.docs)
    ensures Satisfies(body, Rules) && instructors.castable(id) && FailureAt(fault, 0).Some? ==>
      r == ServerFailure() && instructors.docs == old(instructors.docs)
    ensures Satisfies(body, Rules) && instructors.castable(id) && FailureAt(fault, 0).None? ==>
      if !(IsHex24(id) && Owns(old(instructors.docs), owner, CanonicalId(id))) then
        r == Response(404, Message(NotFound)) && instructors.docs == old(instructors.docs)
      else if FailureAt(fault, 1).Some? then
        r == ServerFailure() && instructors.docs == old(instructors.docs)
      else
        && instructors.docs == old(instructors.docs)[CanonicalId(id) := Doc(owner, Normalised(body))]
        && r == if FailureAt(fault, 2).Some? then ServerFailure() else Response(200, One(CanonicalId(id), Doc(owner, Normalised(body))))
  {
    var errors := Validate(body, Rules);
    if errors != [] {
      return Response(400, Invalid(errors));
    }
    var fields := CollectFields(body);
    NormalisedWellFormed(body);
    IdPatternIsHex24(id);

    var found := instructors.FindById(owner, id, FailureAt(fault, 0));
    if found.CastFailed? {
      return CatchNotFoundOnCast(CastError, NotFound);
    }
    if found.LookupFailed? {
      return CatchNotFoundOnCast(StoreFailed(found.failure), NotFound);
    }
    if !MatchesIdPattern(id) || found.Absent? {
      return Response(404, Message(NotFound));
    }
    StoreKeepsWellFormed(instructors.docs, owner, CanonicalId(id), Normalised(body));
    assert SetFields(instructors.docs[CanonicalId(id)].value, fields) == Normalised(body);
    var updated := instructors.Update(owner, CanonicalId(id), (i: Instructor) => SetFields(i, fields), FailureAt(fault, 1));
    if updated.Threw? {
      return CatchNotFoundOnCast(updated.error, NotFound);
    }
    assert updated.value == Doc(owner, Normalised(body));
    var err := instructors.Resave(FailureAt(fault, 2));
    if err.Some? {
      return CatchNotFoundOnCast(err.value, NotFound);
    }
    r := Response(200, One(CanonicalId(id), updated.value));
  }

  /** GET `/`: the owner's instructors, or 404 when there are none. */
  method List(instructors: Collection<Instructor>, owner: OwnerId, fault: Fault) returns (r: Response<Instructor>)
    ensures FailureAt(fault, 0).Some? ==> r == ServerFailure()
    ensures FailureAt(fault, 0).None? ==>
      r == if OwnedBy(instructors.docs, owner) == map[] then Response(404, Message(NoneForCompany))
           else Response(200, Many(OwnedBy(instructors.docs, owner)))
    ensures r.status == 200 ==>
      (r.payload.Many? && r.payload.docs != map[] && forall id :: id in r.payload.docs ==> Owns(instructors.docs, owner, id))
  {
    var all := instructors.FindAll(owner, FailureAt(fault, 0));
    if all.Threw? {
      return ServerFailure();
    }
    if all.value == map[] {
      return Response(404, Message(NoneForCompany));
    }
    r := Response(200, Many(all.value));
  }

  /** GET `/:id`. Here every exception, a failed cast included, is a server error. */
  method GetById(instructors: Collection<Instructor>, owner: OwnerId, id: string, fault: Fault)
    returns (r: Response<Instructor>)
    requires instructors.Valid()
    ensures !instructors.castable(id) || FailureAt(fault, 0).Some? ==> r == ServerFailure()
    ensures instructors.castable(id) && FailureAt(fault, 0).None? ==>
      r == if IsHex24(id) && Owns(instructors.docs, owner, CanonicalId(id)) then Response(200, One(CanonicalId(id), instructors.docs[CanonicalId(id)]))
           else Response(404, Message(NotFound))
    ensures r.status == 200 ==> Owns(instructors.docs, owner, CanonicalId(id)) && r.payload == One(CanonicalId(id), instructors.docs[CanonicalId(id)])
  {
    IdPatternIsHex24(id);
    var found := instructors.FindById(owner, id, FailureAt(fault, 0));
    if found.CastFailed? || found.LookupFailed? {
      return ServerFailure();
    }
    if !MatchesIdPattern(id) || found.Absent? {
      return Response(404, Message(NotFound));
    }
    r := Response(200, One(CanonicalId(id), found.doc));
  }

  /** DELETE `/:id`: removes exactly the owner's instructor with that id; every exception is a server error. */
  method Delete(instructors: Collection<Instructor>, owner: OwnerId, id: string, fault: Fault)
    returns (r: Response<Instructor>)
    requires instructors.Valid() && AllWellFormed(instructors.docs)
    modifies instructors
    ensures instructors.Valid() && AllWellFormed(instructors.docs)
    ensures OthersUnchanged(old(instructors.docs), instructors.docs, owner)
    ensures instructors.docs == if r.status == 200 then old(instructors.docs) - {CanonicalId(id)} else old(instructors.docs)
    ensures !instructors.castable(id) || FailureAt(fault, 0).Some? ==> r == ServerFailure()
    ensures instructors.castable(id) && FailureAt(fault, 0).None? ==>
      if !(IsHex24(id) && Owns(old(instructors.docs), owner, CanonicalId(id))) then r == Response(404, Message(NotFound))
      else if FailureAt(fault, 1).Some? then r == ServerFailure()
      else r == Response(200, Message(Removed))
  {
    IdPatternIsHex24(id);
    var found := instructors.FindById(owner, id, FailureAt(fault, 0));
    if found.CastFailed? || found.LookupFailed? {
      return ServerFailure();
    }
    if !MatchesIdPattern(id) || found.Absent? {
      return Response(404, Message(NotFound));
    }
    RemoveKeepsOthers(instructors.docs, owner, CanonicalId(id));
    RemoveKeepsWellFormed(instructors.docs, CanonicalId(id));
    var err := instructors.Remove(CanonicalId(id), FailureAt(fault, 1));
    if err.Some? {
      return ServerFailure();
    }
    r := Response(200, Message(Removed));
  }

  // -----------------------------------------------------------------------
  // The duplicate pre-check
  // -----------------------------------------------------------------------

  /**
   * As written: the raw `inn` is compared with stored values, which are all
   * upper-cased, so an `inn` holding a lower-case letter never matches, even
   * when its owner already has it; the create then stores a second
   * instructor with the same `inn`.
   */
  lemma RawInnCheckAdmitsDuplicate(docs: map<Id, Doc<Instructor>>, owner: OwnerId, body: Body, newId: Id)
    requires AllWellFormed(docs) && newId !in docs
    requires !IsUpperNormal(Field(body, "inn"))
    requires HasKey(docs, owner, Inn, ToUpperAscii(Field(body, "inn")))
    ensures !HasKey(docs, owner, Inn, Field(body, "inn"))
    ensures !KeyUnique(docs[newId := Doc(owner, Normalised(body))], Inn)
  {
    var raw := Field(body, "inn");
    forall id | id in docs && docs[id].owner == owner ensures docs[id].value.inn != raw {
      var stored := docs[id].value.inn;
      assert WellFormed(docs[id].value);
      UpperFixedPoints(stored);
      LowerNeverMatchesUpper(raw, stored);
    }
    var oldId :| oldId in docs && docs[oldId].owner == owner && Inn(docs[oldId].value) == ToUpperAscii(raw);
    var after := docs[newId := Doc(owner, Normalised(body))];
    assert oldId != newId && after[oldId].owner == after[newId].owner;
    assert Inn(after[oldId].value) == Inn(after[newId].value);
  }

  /** The check the handler evidently intends: against `inn` as it is stored. */
  predicate InnTaken(docs: map<Id, Doc<Instructor>>, owner: OwnerId, body: Body) {
    HasKey(docs, owner, Inn, ToUpperAscii(Field(body, "inn")))
  }

  /** With the intended check, a create keeps each owner's `inn` values unique. */
  lemma InnTakenKeepsInnsUnique(docs: map<Id, Doc<Instructor>>, owner: OwnerId, body: Body, newId: Id)
    requires KeyUnique(docs, Inn) && newId !in docs
    requires !InnTaken(docs, owner, body)
    ensures KeyUnique(docs[newId := Doc(owner, Normalised(body))], Inn)
  {
    InsertKeepsKeyUnique(docs, Inn, newId, Doc(owner, Normalised(body)));
  }
}
