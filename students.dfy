/**
 * The student routes: POST `/`, PUT `/:id`, GET `/`, GET `/:id` and DELETE
 * `/:id`, each scoped to the authenticated owner. Unlike the car routes,
 * every `/:id` route here answers a failed ObjectId cast with 404.
 */
module StudentRoutes {
  import opened ObjectIds
  import opened Text
  import opened Validation
  import opened Storage
  import opened Api

  /** A student document's own fields (the `date` default is left out). */
  datatype Student = Student(name: string, passport: string)

  /** `studentFields`: the fields the request supplied, already normalised. */
  datatype StudentFields = StudentFields(name: Option<string>, passport: Option<string>)

  const Rules: seq<Rule> := [
    Rule("name", "Name is required"),
    Rule("passport", "Passport serial is required")
  ]

  const AlreadyExists: string := "Student already exists"
  const NotFound: string := "Student not found"
  const NoneForCompany: string := "There are no students for this company"
  const Removed: string := "Student removed"

  /** The natural key: the passport serial. */
  function Passport(student: Student): string {
    student.passport
  }

  /** The student a request describes, as the handlers store it. */
  function Normalised(body: Body): Student {
    Student(Field(body, "name"), ToUpperAscii(Field(body, "passport")))
  }

  /** What every stored student satisfies: both fields set, the passport upper-cased. */
  predicate WellFormed(student: Student) {
    student.name != "" && student.passport != "" && IsUpperNormal(student.passport)
  }

  ghost predicate AllWellFormed(docs: map<Id, Doc<Student>>) {
    forall id :: id in docs ==> WellFormed(docs[id].value)
  }

  /**
   * Storing a well-formed student under a fresh id or one of the owner's ids
   * keeps every student well formed and leaves other owners' students alone.
   */
  lemma StoreKeepsWellFormed(docs: map<Id, Doc<Student>>, owner: OwnerId, id: Id, student: Student)
    requires AllWellFormed(docs) && WellFormed(student)
    requires id in docs ==> docs[id].owner == owner
    ensures AllWellFormed(docs[id := Doc(owner, student)])
    ensures OthersUnchanged(docs, docs[id := Doc(owner, student)], owner)
  {
  }

  /** Removing a record keeps every remaining record well formed. */
  lemma RemoveKeepsWellFormed(docs: map<Id, Doc<Student>>, id: Id)
    requires AllWellFormed(docs)
    ensures AllWellFormed(docs - {id})
  {
  }

  /** The two checks pass exactly when name and passport are both non-empty. */
  lemma RulesMeaning(body: Body)
    ensures Satisfies(body, Rules) <==> Present(body, "name") && Present(body, "passport")
  {
    assert Rules[0].field == "name" && Rules[1].field == "passport";
  }

  /** A valid request describes a well-formed student: the name as given, the passport upper-cased. */
  lemma NormalisedWellFormed(body: Body)
    requires Satisfies(body, Rules)
    ensures WellFormed(Normalised(body))
    ensures Normalised(body) == Student(body["name"], ToUpperAscii(body["passport"]))
  {
    RulesMeaning(body);
    UpperIsNormal(body["passport"]);
  }

  /** `{ $set: studentFields }`: each supplied field replaces the stored one. */
  function SetFields(student: Student, fields: StudentFields): Student {
    Student(
      if fields.name.Some? then fields.name.value else student.name,
      if fields.passport.Some? then fields.passport.value else student.passport)
  }

  /** Fields left out of the patch keep their stored value; a complete patch ignores it. */
  lemma SetFieldsOnlySupplied(student: Student, other: Student, fields: StudentFields)
    ensures fields == StudentFields(None, None) ==> SetFields(student, fields) == student
    ensures fields.name.None? ==> SetFields(student, fields).name == student.name
    ensures fields.passport.None? ==> SetFields(student, fields).passport == student.passport
    ensures fields.name.Some? && fields.passport.Some? ==> SetFields(student, fields) == SetFields(other, fields)
  {
  }

  /** Builds `studentFields` field by field, as both POST and PUT do. */
  method CollectFields(body: Body) returns (fields: StudentFields)
    ensures fields.name == if Present(body, "name") then Some(body["name"]) else None
    ensures fields.passport == if Present(body, "passport") then Some(ToUpperAscii(body["passport"])) else None
    ensures Satisfies(body, Rules) ==> forall s :: SetFields(s, fields) == Normalised(body)
  {
    fields := StudentFields(None, None);
    if Present(body, "name") {
      fields := fields.(name := Some(body["name"]));
    }
    if Present(body, "passport") {
      fields := fields.(passport := Some(ToUpperAscii(body["passport"])));
    }
    RulesMeaning(body);
  }

  /**
   * POST `/`. The duplicate pre-check looks for the request's passport as
   * sent, while the student is stored with the passport upper-cased; every
   * exception is a server error.
   */
  method Create(students: Collection<Student>, owner: OwnerId, body: Body, newId: Id, fault: Fault)
    returns (r: Response<Student>)
    requires students.Valid() && AllWellFormed(students.docs)
    requires IsObjectIdText(newId) && newId !in students.docs
    modifies students
    ensures students.Valid() && AllWellFormed(students.docs)
    ensures OthersUnchanged(old(students.docs), students.docs, owner)
    ensures students.docs ==
      if r.status == 200 then old(students.docs)[newId := Doc(owner, Normalised(body))] else old(students.docs)
    ensures !Satisfies(body, Rules) ==> r == Rejected(body, Rules)
    ensures Satisfies(body, Rules) && FailureAt(fault, 0).Some? ==> r == ServerFailure()
    ensures Satisfies(body, Rules) && FailureAt(fault, 0).None? ==>
      if HasKey(old(students.docs), owner, Passport, Field(body, "passport")) then
        r == Response(400, Message(AlreadyExists))
      else if FailureAt(fault, 1).Some? then
        r == ServerFailure()
      else
        r == Response(200, One(newId, Doc(owner, Normalised(body))))
  {
    var errors := Validate(body, Rules);
    if errors != [] {
      return Response(400, Invalid(errors));
    }
    var fields := CollectFields(body);
    RulesMeaning(body);
    NormalisedWellFormed(body);

    var found := students.FindByKey(owner, Passport, body["passport"], FailureAt(fault, 0));
    if found.Threw? {
      return ServerFailure();
    }
    if found.value {
      return Response(400, Message(AlreadyExists));
    }
    var student := Student(fields.name.value, fields.passport.value);
    StoreKeepsWellFormed(students.docs, owner, newId, student);
    var err := students.Insert(newId, Doc(owner, student), FailureAt(fault, 1));
    if err.Some? {
      return ServerFailure();
    }
    r := Response(200, One(newId, Doc(owner, student)));
  }

  /**
   * PUT `/:id`. The lookup runs before the id-format check; an id that does
   * not cast reaches the `catch`, which answers 404.
   */
  method Update(students: Collection<Student>, owner: OwnerId, id: string, body: Body, fault: Fault)
    returns (r: Response<Student>)
    requires students.Valid() && AllWellFormed(students.docs)
    modifies students
    ensures students.Valid() && AllWellFormed(students.docs)
    ensures OthersUnchanged(old(students.docs), students.docs, owner)
    ensures !Satisfies(body, Rules) ==> r == Rejected(body, Rules) && students.docs == old(students.docs)
    ensures Satisfies(body, Rules) && !students.castable(id) ==>
      r == Response(404, Message(NotFound)) && students.docs == old(students.docs)
    ensures Satisfies(body, Rules) && students.castable(id) && FailureAt(fault, 0).Some? ==>
      r == ServerFailure() && students.docs == old(students.docs)
    ensures Satisfies(body, Rules) && students.castable(id) && FailureAt(fault, 0).None? ==>
      if !(IsHex24(id) && Owns(old(students.docs), owner, CanonicalId(id))) then
        r == Response(404, Message(NotFound)) && students.docs == old(students.docs)
      else if FailureAt(fault, 1).Some? then
        r == ServerFailure() && students.docs == old(students.docs)
      else
        && students.docs == old(students.docs)[CanonicalId(id) := Doc(owner, Normalised(body))]
        && r == if FailureAt(fault, 2).Some? then ServerFailure() else Response(200, One(CanonicalId(id), Doc(owner, Normalised(body))))
  {
    var errors := Validate(body, Rules);
    if errors != [] {
      return Response(400, Invalid(errors));
    }
    var fields := CollectFields(body);
    NormalisedWellFormed(body);
    IdPatternIsHex24(id);

    var found := students.FindById(owner, id, FailureAt(fault, 0));
    if found.CastFailed? {
      return CatchNotFoundOnCast(CastError, NotFound);
    }
    if found.LookupFailed? {
      return CatchNotFoundOnCast(StoreFailed(found.failure), NotFound);
    }
    if !MatchesIdPattern(id) || found.Absent? {
      return Response(404, Message(NotFound));
    }
    StoreKeepsWellFormed(students.docs, owner, CanonicalId(id), Normalised(body));
    assert SetFields(students.docs[CanonicalId(id)].value, fields) == Normalised(body);
    var updated := students.Update(owner, CanonicalId(id), (s: Student) => SetFields(s, fields), FailureAt(fault, 1));
    if updated.Threw? {
      return CatchNotFoundOnCast(updated.error, NotFound);
    }
    var err := students.Resave(FailureAt(fault, 2));
    if err.Some? {
      return CatchNotFoundOnCast(err.value, NotFound);
    }
    r := Response(200, One(CanonicalId(id), updated.value));
  }

  /** GET `/`: the owner's students, or 404 when there are none. */
  method List(students: Collection<Student>, owner: OwnerId, fault: Fault) returns (r: Response<Student>)
    ensures FailureAt(fault, 0).Some? ==> r == ServerFailure()
    ensures FailureAt(fault, 0).None? ==>
      r == if OwnedBy(students.docs, owner) == map[] then Response(404, Message(NoneForCompany))
           else Response(200, Many(OwnedBy(students.docs, owner)))
    ensures r.status == 200 ==>
      (r.payload.Many? && r.payload.docs != map[] && forall id :: id in r.payload.docs ==> Owns(students.docs, owner, id))
  {
    var all := students.FindAll(owner, FailureAt(fault, 0));
    if all.Threw? {
      return ServerFailure();
    }
    if all.value == map[] {
      return Response(404, Message(NoneForCompany));
    }
    r := Response(200, Many(all.value));
  }

  /**
   * GET `/:id`. A failed cast is caught and answered with 404, so a
   * malformed id is "not found" unless the lookup itself fails.
   */
  method GetById(students: Collection<Student>, owner: OwnerId, id: string, fault: Fault)
    returns (r: Response<Student>)
    requires students.Valid()
    ensures !students.castable(id) ==> r == Response(404, Message(NotFound))
    ensures students.castable(id) && FailureAt(fault, 0).Some? ==> r == ServerFailure()
    ensures students.castable(id) && FailureAt(fault, 0).None? ==>
      r == if IsHex24(id) && Owns(students.docs, owner, CanonicalId(id)) then Response(200, One(CanonicalId(id), students.docs[CanonicalId(id)]))
           else Response(404, Message(NotFound))
    ensures r.status == 200 <==> FailureAt(fault, 0).None? && IsHex24(id) && Owns(students.docs, owner, CanonicalId(id))
    ensures r.status == 200 ==> r.payload == One(CanonicalId(id), students.docs[CanonicalId(id)])
  {
    IdPatternIsHex24(id);
    var found := students.FindById(owner, id, FailureAt(fault, 0));
    if found.CastFailed? {
      return CatchNotFoundOnCast(CastError, NotFound);
    }
    if found.LookupFailed? {
      return CatchNotFoundOnCast(StoreFailed(found.failure), NotFound);
    }
    if !MatchesIdPattern(id) || found.Absent? {
      return Response(404, Message(NotFound));
    }
    r := Response(200, One(CanonicalId(id), found.doc));
  }

  /** DELETE `/:id`: removes exactly the owner's student with that id; a failed cast is 404. */
  method Delete(students: Collection<Student>, owner: OwnerId, id: string, fault: Fault)
    returns (r: Response<Student>)
    requires students.Valid() && AllWellFormed(students.docs)
    modifies students
    ensures students.Valid() && AllWellFormed(students.docs)
    ensures OthersUnchanged(old(students.docs), students.docs, owner)
    ensures students.docs == if r.status == 200 then old(students.docs) - {CanonicalId(id)} else old(students.docs)
    ensures !students.castable(id) ==> r == Response(404, Message(NotFound))
    ensures students.castable(id) && FailureAt(fault, 0).Some? ==> r == ServerFailure()
    ensures students.castable(id) && FailureAt(fault, 0).None? ==>
      if !(IsHex24(id) && Owns(old(students.docs), owner, CanonicalId(id))) then r == Response(404, Message(NotFound))
      else if FailureAt(fault, 1).Some? then r == ServerFailure()
      else r == Response(200, Message(Removed))
  {
    IdPatternIsHex24(id);
    var found := students.FindById(owner, id, FailureAt(fault, 0));
    if found.CastFailed? {
      return CatchNotFoundOnCast(CastError, NotFound);
    }
    if found.LookupFailed? {
      return CatchNotFoundOnCast(StoreFailed(found.failure), NotFound);
    }
    if !MatchesIdPattern(id) || found.Absent? {
      return Response(404, Message(NotFound));
    }
    RemoveKeepsOthers(students.docs, owner, CanonicalId(id));
    RemoveKeepsWellFormed(students.docs, CanonicalId(id));
    var err := students.Remove(CanonicalId(id), FailureAt(fault, 1));
    if err.Some? {
      return CatchNotFoundOnCast(err.value, NotFound);
    }
    r := Response(200, Message(Removed));
  }

  // -----------------------------------------------------------------------
  // The duplicate pre-check
  // -----------------------------------------------------------------------

  /**
   * As written: the raw passport serial is compared with stored serials,
   * which are all upper-cased, so a serial holding a lower-case letter never
   * matches, even when its owner already has it; the create then stores a
   * second student with the same serial.
   */
  lemma RawPassportCheckAdmitsDuplicate(docs: map<Id, Doc<Student>>, owner: OwnerId, body: Body, newId: Id)
    requires AllWellFormed(docs) && newId !in docs
    requires !IsUpperNormal(Field(body, "passport"))
    requires HasKey(docs, owner, Passport, ToUpperAscii(Field(body, "passport")))
    ensures !HasKey(docs, owner, Passport, Field(body, "passport"))
    ensures !KeyUnique(docs[newId := Doc(owner, Normalised(body))], Passport)
  {
    var raw := Field(body, "passport");
    forall id | id in docs && docs[id].owner == owner ensures docs[id].value.passport != raw {
      var stored := docs[id].value.passport;
      assert WellFormed(docs[id].value);
      UpperFixedPoints(stored);
      LowerNeverMatchesUpper(raw, stored);
    }
    var oldId :| oldId in docs && docs[oldId].owner == owner && Passport(docs[oldId].value) == ToUpperAscii(raw);
    var after := docs[newId := Doc(owner, Normalised(body))];
    assert oldId != newId && after[oldId].owner == after[newId].owner;
    assert Passport(after[oldId].value) == Passport(after[newId].value);
  }

  /** The check the handler evidently intends: against the serial as it is stored. */
  predicate PassportTaken(docs: map<Id, Doc<Student>>, owner: OwnerId, body: Body) {
    HasKey(docs, owner, Passport, ToUpperAscii(Field(body, "passport")))
  }

  /** With the intended check, a create keeps each owner's passport serials unique. */
  lemma PassportTakenKeepsPassportsUnique(docs: map<Id, Doc<Student>>, owner: OwnerId, body: Body, newId: Id)
    requires KeyUnique(docs, Passport) && newId !in docs
    requires !PassportTaken(docs, owner, body)
    ensures KeyUnique(docs[newId := Doc(owner, Normalised(body))], Passport)
  {
    InsertKeepsKeyUnique(docs, Passport, newId, Doc(owner, Normalised(body)));
  }
}
