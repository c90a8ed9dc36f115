/**
 * The car routes: POST `/`, PUT `/:id`, GET `/`, GET `/:id` and DELETE
 * `/:id`, each scoped to the authenticated owner.
 */
module CarRoutes {
  import opened ObjectIds
  import opened Text
  import opened Validation
  import opened Storage
  import opened Api

  /** A car document's own fields (the `date` default is left out). */
  datatype Car = Car(name: string, number: string, category: string)

  /** `carFields`: the fields the request supplied, already normalised. */
  datatype CarFields = CarFields(name: Option<string>, number: Option<string>, category: Option<string>)

  const Rules: seq<Rule> := [
    Rule("name", "name is required"),
    Rule("number", "License plate number is required"),
    Rule("category", "Category is required")
  ]

  const AlreadyExists: string := "Car already exists"
  const NotFound: string := "Car not found"
  const NoneForCompany: string := "There are no cars for this company"
  const Removed: string := "Car removed"

  /** The natural key: the licence plate number. */
  function PlateNumber(car: Car): string {
    car.number
  }

  /** The car a request describes, as the handlers store it. */
  function Normalised(body: Body): Car {
    Car(Field(body, "name"), ToUpperAscii(Field(body, "number")), ToUpperAscii(Field(body, "category")))
  }

  /** What every stored car satisfies: required fields set, number and category upper-cased. */
  predicate WellFormed(car: Car) {
    && car.name != "" && car.number != "" && car.category != ""
    && IsUpperNormal(car.number) && IsUpperNormal(car.category)
  }

  ghost predicate AllWellFormed(docs: map<Id, Doc<Car>>) {
    forall id :: id in docs ==> WellFormed(docs[id].value)
  }

  /**
   * Storing a well-formed car under a fresh id or one of the owner's ids
   * keeps every car well formed and leaves other owners' cars alone.
   */
  lemma StoreKeepsWellFormed(docs: map<Id, Doc<Car>>, owner: OwnerId, id: Id, car: Car)
    requires AllWellFormed(docs) && WellFormed(car)
    requires id in docs ==> docs[id].owner == owner
    ensures AllWellFormed(docs[id := Doc(owner, car)])
    ensures OthersUnchanged(docs, docs[id := Doc(owner, car)], owner)
  {
  }

  /** Removing a record keeps every remaining record well formed. */
  lemma RemoveKeepsWellFormed(docs: map<Id, Doc<Car>>, id: Id)
    requires AllWellFormed(docs)
    ensures AllWellFormed(docs - {id})
  {
  }

  /** The three checks pass exactly when name, number and category are all non-empty. */
  lemma RulesMeaning(body: Body)
    ensures Satisfies(body, Rules) <==> Present(body, "name") && Present(body, "number") && Present(body, "category")
  {
    assert Rules[0].field == "name" && Rules[1].field == "number" && Rules[2].field == "category";
  }

  /** A valid request describes a well-formed car, its name kept as given. */
  lemma NormalisedWellFormed(body: Body)
    requires Satisfies(body, Rules)
    ensures WellFormed(Normalised(body))
    ensures Normalised(body).name == body["name"]
    ensures Normalised(body).number == ToUpperAscii(body["number"])
    ensures Normalised(body).category == ToUpperAscii(body["category"])
  {
    RulesMeaning(body);
    UpperIsNormal(body["number"]);
    UpperIsNormal(body["category"]);
  }

  /** `{ $set: carFields }`: each supplied field replaces the stored one. */
  function SetFields(car: Car, fields: CarFields): Car {
    Car(
      if fields.name.Some? then fields.name.value else car.name,
      if fields.number.Some? then fields.number.value else car.number,
      if fields.category.Some? then fields.category.value else car.category)
  }

  /** Fields left out of the patch keep their stored value; a complete patch ignores it. */
  lemma SetFieldsOnlySupplied(car: Car, other: Car, fields: CarFields)
    ensures fields == CarFields(None, None, None) ==> SetFields(car, fields) == car
    ensures fields.name.None? ==> SetFields(car, fields).name == car.name
    ensures fields.number.None? ==> SetFields(car, fields).number == car.number
    ensures fields.category.None? ==> SetFields(car, fields).category == car.category
    ensures fields.name.Some? && fields.number.Some? && fields.category.Some? ==>
      SetFields(car, fields) == SetFields(other, fields)
    ensures SetFields(SetFields(car, fields), fields) == SetFields(car, fields)
  {
  }

  /** Builds `carFields` field by field, as both POST and PUT do. */
  method CollectFields(body: Body) returns (fields: CarFields)
    ensures fields.name == if Present(body, "name") then Some(body["name"]) else None
    ensures fields.number == if Present(body, "number") then Some(ToUpperAscii(body["number"])) else None
    ensures fields.category == if Present(body, "category") then Some(ToUpperAscii(body["category"])) else None
    ensures Satisfies(body, Rules) ==> forall car :: SetFields(car, fields) == Normalised(body)
  {
    fields := CarFields(None, None, None);
    if Present(body, "name") {
      fields := fields.(name := Some(body["name"]));
    }
    if Present(body, "number") {
      fields := fields.(number := Some(ToUpperAscii(body["number"])));
    }
    if Present(body, "category") {
      fields := fields.(category := Some(ToUpperAscii(body["category"])));
    }
    RulesMeaning(body);
  }

  /** The `catch` of POST: a duplicate-key violation is a conflict, anything else a server error. */
  function CatchCreate(e: Thrown): (r: Response<Car>)
    ensures r.status == 400 <==> e == StoreFailed(DuplicateKey)
    ensures r.status == 400 ==> r.payload == Message(AlreadyExists)
    ensures r.status != 400 ==> r == ServerFailure()
  {
    if e == StoreFailed(DuplicateKey) then Response(400, Message(AlreadyExists)) else ServerFailure()
  }

  /**
   * POST `/`. The duplicate pre-check looks for the request's number as
   * sent, while the car is stored with the number upper-cased.
   */
  method Create(cars: Collection<Car>, owner: OwnerId, body: Body, newId: Id, fault: Fault)
    returns (r: Response<Car>)
    requires cars.Valid() && AllWellFormed(cars.docs)
    requires IsObjectIdText(newId) && newId !in cars.docs
    modifies cars
    ensures cars.Valid() && AllWellFormed(cars.docs)
    ensures OthersUnchanged(old(cars.docs), cars.docs, owner)
    ensures cars.docs == if r.status == 200 then old(cars.docs)[newId := Doc(owner, Normalised(body))] else old(cars.docs)
    ensures !Satisfies(body, Rules) ==> r == Rejected(body, Rules)
    ensures Satisfies(body, Rules) && FailureAt(fault, 0).Some? ==> r == CatchCreate(StoreFailed(fault.failure))
    ensures Satisfies(body, Rules) && FailureAt(fault, 0).None? ==>
      if HasKey(old(cars.docs), owner, PlateNumber, Field(body, "number")) then
        r == Response(400, Message(AlreadyExists))
      else if FailureAt(fault, 1).Some? then
        r == CatchCreate(StoreFailed(fault.failure))
      else
        r == Response(200, One(newId, Doc(owner, Normalised(body))))
  {
    var errors := Validate(body, Rules);
    if errors != [] {
      return Response(400, Invalid(errors));
    }
    var fields := CollectFields(body);
    RulesMeaning(body);
    NormalisedWellFormed(body);

    var found := cars.FindByKey(owner, PlateNumber, body["number"], FailureAt(fault, 0));
    if found.Threw? {
      return CatchCreate(found.error);
    }
    if found.value {
      return Response(400, Message(AlreadyExists));
    }
    var car := Car(fields.name.value, fields.number.value, fields.category.value);
    assert car == Normalised(body);
    StoreKeepsWellFormed(cars.docs, owner, newId, car);
    var err := cars.Insert(newId, Doc(owner, car), FailureAt(fault, 1));
    if err.Some? {
      return CatchCreate(err.value);
    }
    r := Response(200, One(newId, Doc(owner, car)));
  }

  /**
   * PUT `/:id`. The lookup runs before the id-format check, so an id that
   * does not cast reaches the `catch`, which answers 500 in this file.
   */
  method Update(cars: Collection<Car>, owner: OwnerId, id: string, body: Body, fault: Fault)
    returns (r: Response<Car>)
    requires cars.Valid() && AllWellFormed(cars.docs)
    modifies cars
    ensures cars.Valid() && AllWellFormed(cars.docs)
    ensures OthersUnchanged(old(cars.docs), cars.docs, owner)
    ensures !Satisfies(body, Rules) ==> r == Rejected(body, Rules) && cars.docs == old(cars.docs)
    ensures Satisfies(body, Rules) && (!cars.castable(id) || FailureAt(fault, 0).Some?) ==>
      r == ServerFailure() && cars.docs == old(cars.docs)
    ensures Satisfies(body, Rules) && cars.castable(id) && FailureAt(fault, 0).None? ==>
      if !(IsHex24(id) && Owns(old(cars.docs), owner, CanonicalId(id))) then
        r == Response(404, Message(NotFound)) && cars.docs == old(cars.docs)
      else if FailureAt(fault, 1).Some? then
        r == ServerFailure() && cars.docs == old(cars.docs)
      else
        && cars.docs == old(cars.docs)[CanonicalId(id) := Doc(owner, Normalised(body))]
        && r == if FailureAt(fault, 2).Some? then ServerFailure() else Response(200, One(CanonicalId(id), Doc(owner, Normalised(body))))
  {
    var errors := Validate(body, Rules);
    if errors != [] {
      return Response(400, Invalid(errors));
    }
    var fields := CollectFields(body);
    NormalisedWellFormed(body);
    IdPatternIsHex24(id);

    var found := cars.FindById(owner, id, FailureAt(fault, 0));
    if found.CastFailed? || found.LookupFailed? {
      return ServerFailure();
    }
    if !MatchesIdPattern(id) || found.Absent? {
      return Response(404, Message(NotFound));
    }
    StoreKeepsWellFormed(cars.docs, owner, CanonicalId(id), Normalised(body));
    assert SetFields(cars.docs[CanonicalId(id)].value, fields) == Normalised(body);
    var updated := cars.Update(owner, CanonicalId(id), (car: Car) => SetFields(car, fields), FailureAt(fault, 1));
    if updated.Threw? {
      return ServerFailure();
    }
    assert updated.value == Doc(owner, Normalised(body));
    var err := cars.Resave(FailureAt(fault, 2));
    if err.Some? {
      return ServerFailure();
    }
    r := Response(200, One(CanonicalId(id), updated.value));
  }

  /** GET `/`: the owner's cars, or 404 when there are none. */
  method List(cars: Collection<Car>, owner: OwnerId, fault: Fault) returns (r: Response<Car>)
    ensures FailureAt(fault, 0).Some? ==> r == ServerFailure()
    ensures FailureAt(fault, 0).None? ==>
      r == if OwnedBy(cars.docs, owner) == map[] then Response(404, Message(NoneForCompany))
           else Response(200, Many(OwnedBy(cars.docs, owner)))
    ensures r.status == 200 ==>
      (r.payload.Many? && r.payload.docs != map[] && forall id :: id in r.payload.docs ==> Owns(cars.docs, owner, id))
  {
    var all := cars.FindAll(owner, FailureAt(fault, 0));
    if all.Threw? {
      return ServerFailure();
    }
    if all.value == map[] {
      return Response(404, Message(NoneForCompany));
    }
    r := Response(200, Many(all.value));
  }

  /** GET `/:id`. As in PUT, an id that does not cast is answered with 500. */
  method GetById(cars: Collection<Car>, owner: OwnerId, id: string, fault: Fault) returns (r: Response<Car>)
    requires cars.Valid()
    ensures !cars.castable(id) || FailureAt(fault, 0).Some? ==> r == ServerFailure()
    ensures cars.castable(id) && FailureAt(fault, 0).None? ==>
      r == if IsHex24(id) && Owns(cars.docs, owner, CanonicalId(id)) then Response(200, One(CanonicalId(id), cars.docs[CanonicalId(id)]))
           else Response(404, Message(NotFound))
    ensures r.status == 200 ==> Owns(cars.docs, owner, CanonicalId(id)) && r.payload == One(CanonicalId(id), cars.docs[CanonicalId(id)])
  {
    IdPatternIsHex24(id);
    var found := cars.FindById(owner, id, FailureAt(fault, 0));
    if found.CastFailed? || found.LookupFailed? {
      return ServerFailure();
    }
    if !MatchesIdPattern(id) || found.Absent? {
      return Response(404, Message(NotFound));
    }
    r := Response(200, One(CanonicalId(id), found.doc));
  }

  /**
   * GET `/:id` with the id-format check moved before the lookup, so that a
   * malformed id is always "not found".
   */
  method GetByIdGuarded(cars: Collection<Car>, owner: OwnerId, id: string, fault: Fault) returns (r: Response<Car>)
    requires cars.Valid()
    ensures !IsHex24(id) ==> r == Response(404, Message(NotFound))
    ensures IsHex24(id) && FailureAt(fault, 0).Some? ==> r == ServerFailure()
    ensures IsHex24(id) && FailureAt(fault, 0).None? ==>
      r == if Owns(cars.docs, owner, CanonicalId(id)) then Response(200, One(CanonicalId(id), cars.docs[CanonicalId(id)]))
           else Response(404, Message(NotFound))
    ensures r.status == 500 ==> FailureAt(fault, 0).Some?
  {
    IdPatternIsHex24(id);
    if !MatchesIdPattern(id) {
      return Response(404, Message(NotFound));
    }
    var found := cars.FindById(owner, id, FailureAt(fault, 0));
    if found.CastFailed? || found.LookupFailed? {
      return ServerFailure();
    }
    if found.Absent? {
      return Response(404, Message(NotFound));
    }
    r := Response(200, One(CanonicalId(id), found.doc));
  }

  /** DELETE `/:id`: removes exactly the owner's car with that id. */
  method Delete(cars: Collection<Car>, owner: OwnerId, id: string, fault: Fault) returns (r: Response<Car>)
    requires cars.Valid() && AllWellFormed(cars.docs)
    modifies cars
    ensures cars.Valid() && AllWellFormed(cars.docs)
    ensures OthersUnchanged(old(cars.docs), cars.docs, owner)
    ensures cars.docs == if r.status == 200 then old(cars.docs) - {CanonicalId(id)} else old(cars.docs)
    ensures !cars.castable(id) || FailureAt(fault, 0).Some? ==> r == ServerFailure()
    ensures cars.castable(id) && FailureAt(fault, 0).None? ==>
      if !(IsHex24(id) && Owns(old(cars.docs), owner, CanonicalId(id))) then r == Response(404, Message(NotFound))
      else if FailureAt(fault, 1).Some? then r == ServerFailure()
      else r == Response(200, Message(Removed))
  {
    IdPatternIsHex24(id);
    var found := cars.FindById(owner, id, FailureAt(fault, 0));
    if found.CastFailed? || found.LookupFailed? {
      return ServerFailure();
    }
    if !MatchesIdPattern(id) || found.Absent? {
      return Response(404, Message(NotFound));
    }
    RemoveKeepsOthers(cars.docs, owner, CanonicalId(id));
    RemoveKeepsWellFormed(cars.docs, CanonicalId(id));
    var err := cars.Remove(CanonicalId(id), FailureAt(fault, 1));
    if err.Some? {
      return ServerFailure();
    }
    r := Response(200, Message(Removed));
  }

  // -----------------------------------------------------------------------
  // The duplicate pre-check
  // -----------------------------------------------------------------------

  /**
   * As written: the pre-check compares the raw number with stored numbers,
   * which are all upper-cased, so a number holding a lower-case letter never
   * matches, even when its owner already has that plate; the create then
   * stores a second car with the same number.
   */
  lemma RawPlateCheckAdmitsDuplicate(docs: map<Id, Doc<Car>>, owner: OwnerId, body: Body, newId: Id)
    requires AllWellFormed(docs) && newId !in docs
    requires !IsUpperNormal(Field(body, "number"))
    requires HasKey(docs, owner, PlateNumber, ToUpperAscii(Field(body, "number")))
    ensures !HasKey(docs, owner, PlateNumber, Field(body, "number"))
    ensures !KeyUnique(docs[newId := Doc(owner, Normalised(body))], PlateNumber)
  {
    var raw := Field(body, "number");
    forall id | id in docs && docs[id].owner == owner ensures docs[id].value.number != raw {
      var stored := docs[id].value.number;
      assert WellFormed(docs[id].value);
      UpperFixedPoints(stored);
      LowerNeverMatchesUpper(raw, stored);
    }
    var oldId :| oldId in docs && docs[oldId].owner == owner && PlateNumber(docs[oldId].value) == ToUpperAscii(raw);
    var after := docs[newId := Doc(owner, Normalised(body))];
    assert oldId != newId && after[oldId].owner == after[newId].owner;
    assert PlateNumber(after[oldId].value) == PlateNumber(after[newId].value);
  }

  /** The check the handler evidently intends: against the number as it is stored. */
  predicate PlateTaken(docs: map<Id, Doc<Car>>, owner: OwnerId, body: Body) {
    HasKey(docs, owner, PlateNumber, ToUpperAscii(Field(body, "number")))
  }

  /** With the intended check, a create keeps each owner's plate numbers unique. */
  lemma PlateTakenKeepsPlatesUnique(docs: map<Id, Doc<Car>>, owner: OwnerId, body: Body, newId: Id)
    requires KeyUnique(docs, PlateNumber) && newId !in docs
    requires !PlateTaken(docs, owner, body)
    ensures KeyUnique(docs[newId := Doc(owner, Normalised(body))], PlateNumber)
  {
    InsertKeepsKeyUnique(docs, PlateNumber, newId, Doc(owner, Normalised(body)));
  }
}
