/**
 * The group routes: POST `/`, PUT `/:id`, GET `/`, GET `/:id` and DELETE
 * `/:id`, each scoped to the authenticated owner. Groups are stored as sent:
 * no field is normalised, so the duplicate pre-check on the name compares
 * like with like.
 */
module GroupRoutes {
  import opened ObjectIds
  import opened Validation
  import opened Storage
  import opened Api

  /**
   * A group document's own fields. `start` and `end` are kept as the strings
   * the request carries; their conversion to dates is not part of this model.
   */
  datatype Group = Group(name: string, start: string, end: string)

  /** `groupFields`: the fields the request supplied. */
  datatype GroupFields = GroupFields(name: Option<string>, start: Option<string>, end: Option<string>)

  const Rules: seq<Rule> := [
    Rule("name", "Name is required"),
    Rule("start", "Start date is required"),
    Rule("end", "End date is required")
  ]

  const AlreadyExists: string := "Group already exists"
  const NotFound: string := "Group not found"
  const NoneForCompany: string := "There are no groups for this company"
  const Removed: string := "Group removed"

  /** The natural key: the group's name. */
  function Name(group: Group): string {
    group.name
  }

  /** The group a request describes: its three fields, unchanged. */
  function FromBody(body: Body): Group {
    Group(Field(body, "name"), Field(body, "start"), Field(body, "end"))
  }

  /** What every stored group satisfies: all three fields set. */
  predicate WellFormed(group: Group) {
    group.name != "" && group.start != "" && group.end != ""
  }

  ghost predicate AllWellFormed(docs: map<Id, Doc<Group>>) {
    forall id :: id in docs ==> WellFormed(docs[id].value)
  }

  /**
   * Storing a well-formed group under a fresh id or one of the owner's ids
   * keeps every group well formed and leaves other owners' groups alone.
   */
  lemma StoreKeepsWellFormed(docs: map<Id, Doc<Group>>, owner: OwnerId, id: Id, group: Group)
    requires AllWellFormed(docs) && WellFormed(group)
    requires id in docs ==> docs[id].owner == owner
    ensures AllWellFormed(docs[id := Doc(owner, group)])
    ensures OthersUnchanged(docs, docs[id := Doc(owner, group)], owner)
  {
  }

  /** Removing a record keeps every remaining record well formed. */
  lemma RemoveKeepsWellFormed(docs: map<Id, Doc<Group>>, id: Id)
    requires AllWellFormed(docs)
    ensures AllWellFormed(docs - {id})
  {
  }

  /** The three checks pass exactly when name, start and end are all non-empty. */
  lemma RulesMeaning(body: Body)
    ensures Satisfies(body, Rules) <==> Present(body, "name") && Present(body, "start") && Present(body, "end")
  {
    assert Rules[0].field == "name" && Rules[1].field == "start" && Rules[2].field == "end";
  }

  /** A valid request describes a well-formed group holding exactly the request's values. */
  lemma FromBodyWellFormed(body: Body)
    requires Satisfies(body, Rules)
    ensures WellFormed(FromBody(body))
    ensures FromBody(body) == Group(body["name"], body["start"], body["end"])
  {
    RulesMeaning(body);
  }

  /** `{ $set: groupFields }`: each supplied field replaces the stored one. */
  function SetFields(group: Group, fields: GroupFields): Group {
    Group(
      if fields.name.Some? then fields.name.value else group.name,
      if fields.start.Some? then fields.start.value else group.start,
      if fields.end.Some? then fields.end.value else group.end)
  }

  /** Fields left out of the patch keep their stored value; a complete patch ignores it. */
  lemma SetFieldsOnlySupplied(group: Group, other: Group, fields: GroupFields)
    ensures fields == GroupFields(None, None, None) ==> SetFields(group, fields) == group
    ensures fields.name.None? ==> SetFields(group, fields).name == group.name
    ensures fields.start.None? ==> SetFields(group, fields).start == group.start
    ensures fields.end.None? ==> SetFields(group, fields).end == group.end
    ensures fields.name.Some? && fields.start.Some? && fields.end.Some? ==>
      SetFields(group, fields) == SetFields(other, fields)
  {
  }

  /** Builds `groupFields` field by field, as PUT does. */
  method CollectFields(body: Body) returns (fields: GroupFields)
    ensures fields.name == if Present(body, "name") then Some(body["name"]) else None
    ensures fields.start == if Present(body, "start") then Some(body["start"]) else None
    ensures fields.end == if Present(body, "end") then Some(body["end"]) else None
    ensures Satisfies(body, Rules) ==> forall g :: SetFields(g, fields) == FromBody(body)
  {
    fields := GroupFields(None, None, None);
    if Present(body, "name") {
      fields := fields.(name := Some(body["name"]));
    }
    if Present(body, "start") {
      fields := fields.(start := Some(body["start"]));
    }
    if Present(body, "end") {
      fields := fields.(end := Some(body["end"]));
    }
    RulesMeaning(body);
  }

  /**
   * POST `/`. The group is built straight from the request's values and the
   * pre-check looks for the same name it stores, so names stay unique per
   * owner; every exception is a server error.
   */
  method Create(groups: Collection<Group>, owner: OwnerId, body: Body, newId: Id, fault: Fault)
    returns (r: Response<Group>)
    requires groups.Valid() && AllWellFormed(groups.docs)
    requires IsObjectIdText(newId) && newId !in groups.docs
    modifies groups
    ensures groups.Valid() && AllWellFormed(groups.docs)
    ensures OthersUnchanged(old(groups.docs), groups.docs, owner)
    ensures KeyUnique(old(groups.docs), Name) ==> KeyUnique(groups.docs, Name)
    ensures groups.docs ==
      if r.status == 200 then old(groups.docs)[newId := Doc(owner, FromBody(body))] else old(groups.docs)
    ensures !Satisfies(body, Rules) ==> r == Rejected(body, Rules)
    ensures Satisfies(body, Rules) && FailureAt(fault, 0).Some? ==> r == ServerFailure()
    ensures Satisfies(body, Rules) && FailureAt(fault, 0).None? ==>
      if HasKey(old(groups.docs), owner, Name, Field(body, "name")) then
        r == Response(400, Message(AlreadyExists))
      else if FailureAt(fault, 1).Some? then
        r == ServerFailure()
      else
        r == Response(200, One(newId, Doc(owner, FromBody(body))))
  {
    var errors := Validate(body, Rules);
    if errors != [] {
      return Response(400, Invalid(errors));
    }
    FromBodyWellFormed(body);

    var found := groups.FindByKey(owner, Name, body["name"], FailureAt(fault, 0));
    if found.Threw? {
      return ServerFailure();
    }
    if found.value {
      return Response(400, Message(AlreadyExists));
    }
    var group := Group(body["name"], body["start"], body["end"]);
    if KeyUnique(groups.docs, Name) {
      InsertKeepsKeyUnique(groups.docs, Name, newId, Doc(owner, group));
    }
    StoreKeepsWellFormed(groups.docs, owner, newId, group);
    var err := groups.Insert(newId, Doc(owner, group), FailureAt(fault, 1));
    if err.Some? {
      return ServerFailure();
    }
    r := Response(200, One(newId, Doc(owner, group)));
  }

  /**
   * PUT `/:id`. The lookup runs before the id-format check; an id that does
   * not cast reaches the `catch`, which answers 404. The new name is not
   * checked against the owner's other groups.
   */
  method Update(groups: Collection<Group>, owner: OwnerId, id: string, body: Body, fault: Fault)
    returns (r: Response<Group>)
    requires groups.Valid() && AllWellFormed(groups.docs)
    modifies groups
    ensures groups.Valid() && AllWellFormed(groups.docs)
    ensures OthersUnchanged(old(groups.docs), groups.docs, owner)
    ensures !Satisfies(body, Rules) ==> r == Rejected(body, Rules) && groups.docs == old(groups.docs)
    ensures Satisfies(body, Rules) && !groups.castable(id) ==>
      r == Response(404, Message(NotFound)) && groups.docs == old(groups.docs)
    ensures Satisfies(body, Rules) && groups.castable(id) && FailureAt(fault, 0).Some? ==>
      r == ServerFailure() && groups.docs == old(groups.docs)
    ensures Satisfies(body, Rules) && groups.castable(id) && FailureAt(fault, 0).None? ==>
      if !(IsHex24(id) && Owns(old(groups.docs), owner, CanonicalId(id))) then
        r == Response(404, Message(NotFound)) && groups.docs == old(groups.docs)
      else if FailureAt(fault, 1).Some? then
        r == ServerFailure() && groups.docs == old(groups.docs)
      else
        && groups.docs == old(groups.docs)[CanonicalId(id) := Doc(owner, FromBody(body))]
        && r == if FailureAt(fault, 2).Some? then ServerFailure() else Response(200, One(CanonicalId(id), Doc(owner, FromBody(body))))
  {
    var errors := Validate(body, Rules);
    if errors != [] {
      return Response(400, Invalid(errors));
    }
    var fields := CollectFields(body);
    FromBodyWellFormed(body);
    IdPatternIsHex24(id);

    var found := groups.FindById(owner, id, FailureAt(fault, 0));
    if found.CastFailed? {
      return CatchNotFoundOnCast(CastError, NotFound);
    }
    if found.LookupFailed? {
      return CatchNotFoundOnCast(StoreFailed(found.failure), NotFound);
    }
    if !MatchesIdPattern(id) || found.Absent? {
      return Response(404, Message(NotFound));
    }
    StoreKeepsWellFormed(groups.docs, owner, CanonicalId(id), FromBody(body));
    assert SetFields(groups.docs[CanonicalId(id)].value, fields) == FromBody(body);
    var updated := groups.Update(owner, CanonicalId(id), (g: Group) => SetFields(g, fields), FailureAt(fault, 1));
    if updated.Threw? {
      return CatchNotFoundOnCast(updated.error, NotFound);
    }
    var err := groups.Resave(FailureAt(fault, 2));
    if err.Some? {
      return CatchNotFoundOnCast(err.value, NotFound);
    }
    r := Response(200, One(CanonicalId(id), updated.value));
  }

  /**
   * Because PUT does not re-check the name, renaming a group to the name of
   * another of the owner's groups leaves two groups of that name.
   */
  lemma RenameCanDuplicateName(docs: map<Id, Doc<Group>>, owner: OwnerId, id: Id, other: Id, body: Body)
    requires Owns(docs, owner, id) && Owns(docs, owner, other) && id != other
    requires Satisfies(body, Rules) && Field(body, "name") == docs[other].value.name
    ensures !KeyUnique(docs[id := Doc(owner, FromBody(body))], Name)
  {
    FromBodyWellFormed(body);
    OverwriteCanDuplicateKey(docs, Name, id, other, Doc(owner, FromBody(body)));
  }

  /** GET `/`: the owner's groups, or 404 when there are none. */
  method List(groups: Collection<Group>, owner: OwnerId, fault: Fault) returns (r: Response<Group>)
    ensures FailureAt(fault, 0).Some? ==> r == ServerFailure()
    ensures FailureAt(fault, 0).None? ==>
      r == if OwnedBy(groups.docs, owner) == map[] then Response(404, Message(NoneForCompany))
           else Response(200, Many(OwnedBy(groups.docs, owner)))
    ensures r.status == 200 ==>
      (r.payload.Many? && r.payload.docs != map[] && forall id :: id in r.payload.docs ==> Owns(groups.docs, owner, id))
  {
    var all := groups.FindAll(owner, FailureAt(fault, 0));
    if all.Threw? {
      return ServerFailure();
    }
    if all.value == map[] {
      return Response(404, Message(NoneForCompany));
    }
    r := Response(200, Many(all.value));
  }

  /** GET `/:id`. A failed cast is caught and answered with 404. */
  method GetById(groups: Collection<Group>, owner: OwnerId, id: string, fault: Fault)
    returns (r: Response<Group>)
    requires groups.Valid()
    ensures !groups.castable(id) ==> r == Response(404, Message(NotFound))
    ensures groups.castable(id) && FailureAt(fault, 0).Some? ==> r == ServerFailure()
    ensures groups.castable(id) && FailureAt(fault, 0).None? ==>
      r == if IsHex24(id) && Owns(groups.docs, owner, CanonicalId(id)) then Response(200, One(CanonicalId(id), groups.docs[CanonicalId(id)]))
           else Response(404, Message(NotFound))
    ensures r.status == 200 <==> FailureAt(fault, 0).None? && IsHex24(id) && Owns(groups.docs, owner, CanonicalId(id))
    ensures r.status == 200 ==> r.payload == One(CanonicalId(id), groups.docs[CanonicalId(id)])
  {
    IdPatternIsHex24(id);
    var found := groups.FindById(owner, id, FailureAt(fault, 0));
    if found.CastFailed? {
      return CatchNotFoundOnCast(CastError, NotFound);
    }
    if found.LookupFailed? {
      return CatchNotFoundOnCast(StoreFailed(found.failure), NotFound);
    }
    if !MatchesIdPattern(id) || found.Absent? {
      return Response(404, Message(NotFound));
    }
    r := Response(200, One(CanonicalId(id), found.doc));
  }

  /** DELETE `/:id`: removes exactly the owner's group with that id; a failed cast is 404. */
  method Delete(groups: Collection<Group>, owner: OwnerId, id: string, fault: Fault)
    returns (r: Response<Group>)
    requires groups.Valid() && AllWellFormed(groups.docs)
    modifies groups
    ensures groups.Valid() && AllWellFormed(groups.docs)
    ensures OthersUnchanged(old(groups.docs), groups.docs, owner)
    ensures KeyUnique(old(groups.docs), Name) ==> KeyUnique(groups.docs, Name)
    ensures groups.docs == if r.status == 200 then old(groups.docs) - {CanonicalId(id)} else old(groups.docs)
    ensures !groups.castable(id) ==> r == Response(404, Message(NotFound))
    ensures groups.castable(id) && FailureAt(fault, 0).Some? ==> r == ServerFailure()
    ensures groups.castable(id) && FailureAt(fault, 0).None? ==>
      if !(IsHex24(id) && Owns(old(groups.docs), owner, CanonicalId(id))) then r == Response(404, Message(NotFound))
      else if FailureAt(fault, 1).Some? then r == ServerFailure()
      else r == Response(200, Message(Removed))
  {
    IdPatternIsHex24(id);
    var found := groups.FindById(owner, id, FailureAt(fault, 0));
    if found.CastFailed? {
      return CatchNotFoundOnCast(CastError, NotFound);
    }
    if found.LookupFailed? {
      return CatchNotFoundOnCast(StoreFailed(found.failure), NotFound);
    }
    if !MatchesIdPattern(id) || found.Absent? {
      return Response(404, Message(NotFound));
    }
    RemoveKeepsOthers(groups.docs, owner, CanonicalId(id));
    RemoveKeepsWellFormed(groups.docs, CanonicalId(id));
    if KeyUnique(groups.docs, Name) {
      RemoveKeepsKeyUnique(groups.docs, Name, CanonicalId(id));
    }
    var err := groups.Remove(CanonicalId(id), FailureAt(fault, 1));
    if err.Some? {
      return CatchNotFoundOnCast(err.value, NotFound);
    }
    r := Response(200, Message(Removed));
  }
}
