/**
 * Concrete request sequences applied to fresh collections, showing how the
 * handlers behave end to end on particular inputs.
 */
module Scenarios {
  import opened ObjectIds
  import opened Text
  import opened Validation
  import opened Storage
  import opened Api
  import CarRoutes
  import StudentRoutes
  import GroupRoutes

  /** Two ids the storage could hand out. */
  const FirstId: string := seq(24, _ => 'a')
  const SecondId: string := seq(24, _ => 'b')
  /** The first id spelt with upper-case letters. */
  const FirstIdUpper: string := seq(24, _ => 'A')

  /**
   * How Mongoose 5 casts a string to an ObjectId: 24 hexadecimal digits, or
   * any 12 characters taken as the 12 bytes of the id.
   */
  predicate MongooseCasts(s: string) {
    IsHex24(s) || |s| == 12
  }

  const PlateBody: Body := map["name" := "Focus", "number" := "ab123cd", "category" := "b"]

  /** The plate request is valid and stores plate `AB123CD`, which differs from the plate as sent. */
  lemma PlateBodyFacts()
    ensures Satisfies(PlateBody, CarRoutes.Rules)
    ensures Field(PlateBody, "number") == "ab123cd"
    ensures CarRoutes.Normalised(PlateBody).number == "AB123CD"
  {
    CarRoutes.RulesMeaning(PlateBody);
    UpperPlate();
  }

  lemma UpperPlate()
    ensures ToUpperAscii("ab123cd") == "AB123CD"
  {
    var upper := ToUpperAscii("ab123cd");
    assert upper[0] == 'A' && upper[1] == 'B' && upper[2] == '1' && upper[3] == '2';
    assert upper[4] == '3' && upper[5] == 'C' && upper[6] == 'D';
  }

  /**
   * The same lower-case plate posted twice by one owner: both requests
   * succeed, and the owner ends up with two cars of plate `AB123CD`.
   */
  method LowerCasePlatePostedTwice() returns (first: Response<CarRoutes.Car>, second: Response<CarRoutes.Car>)
    ensures first.status == 200 && second.status == 200
    ensures first.payload.One? && second.payload.One? && first.payload.id != second.payload.id
    ensures first.payload.doc == second.payload.doc
    ensures first.payload.doc.value.number == "AB123CD"
  {
    PlateBodyFacts();
    var car := CarRoutes.Normalised(PlateBody);
    var cars := new Collection<CarRoutes.Car>(MongooseCasts);
    assert IsObjectIdText(FirstId) && IsObjectIdText(SecondId);
    assert FirstId[0] != SecondId[0];
    first := CarRoutes.Create(cars, "u1", PlateBody, FirstId, NoFault);
    assert cars.docs == map[FirstId := Doc("u1", car)];
    assert !HasKey(cars.docs, "u1", CarRoutes.PlateNumber, "ab123cd");
    second := CarRoutes.Create(cars, "u1", PlateBody, SecondId, NoFault);
  }

  const GroupBody: Body := map["name" := "A-1", "start" := "2020-09-01", "end" := "2020-12-20"]

  /**
   * The same group posted twice by one owner: names are stored as sent, so
   * the second request finds the first group and is refused.
   */
  method GroupPostedTwice() returns (first: Response<GroupRoutes.Group>, second: Response<GroupRoutes.Group>)
    ensures first == Response(200, One(FirstId, Doc("u1", GroupRoutes.Group("A-1", "2020-09-01", "2020-12-20"))))
    ensures second == Response(400, Message(GroupRoutes.AlreadyExists))
  {
    GroupRoutes.RulesMeaning(GroupBody);
    var groups := new Collection<GroupRoutes.Group>(MongooseCasts);
    assert IsObjectIdText(FirstId) && IsObjectIdText(SecondId);
    assert FirstId[0] != SecondId[0];
    first := GroupRoutes.Create(groups, "u1", GroupBody, FirstId, NoFault);
    assert groups.docs[FirstId].value.name == "A-1";
    second := GroupRoutes.Create(groups, "u1", GroupBody, SecondId, NoFault);
  }

  /** A car id that is not an ObjectId at all: the car routes answer 500. */
  method MalformedCarId() returns (r: Response<CarRoutes.Car>)
    ensures r == ServerFailure()
  {
    var cars := new Collection<CarRoutes.Car>(MongooseCasts);
    r := CarRoutes.GetById(cars, "u1", "not-an-id", NoFault);
  }

  /** The same id against the guarded lookup: 404. */
  method MalformedCarIdGuarded() returns (r: Response<CarRoutes.Car>)
    ensures r == Response(404, Message(CarRoutes.NotFound))
  {
    NotAnIdIsRefused();
    IdPatternIsHex24("not-an-id");
    var cars := new Collection<CarRoutes.Car>(MongooseCasts);
    r := CarRoutes.GetByIdGuarded(cars, "u1", "not-an-id", NoFault);
  }

  /** The same id against the student routes, whose `catch` maps the cast error: 404. */
  method MalformedStudentId() returns (r: Response<StudentRoutes.Student>)
    ensures r == Response(404, Message(StudentRoutes.NotFound))
  {
    var students := new Collection<StudentRoutes.Student>(MongooseCasts);
    r := StudentRoutes.GetById(students, "u1", "not-an-id", NoFault);
  }

  /**
   * A 12-character id casts but fails the format check: "not found" on
   * every route, the car routes included.
   */
  method TwelveCharacterCarId() returns (r: Response<CarRoutes.Car>)
    ensures r == Response(404, Message(CarRoutes.NotFound))
  {
    var cars := new Collection<CarRoutes.Car>(MongooseCasts);
    r := CarRoutes.GetById(cars, "u1", "twelve-chars", NoFault);
  }

  /** One owner's car is invisible to another owner, by id and in the listing. */
  method OtherOwnersCar() returns (mine: Response<CarRoutes.Car>, byId: Response<CarRoutes.Car>, listed: Response<CarRoutes.Car>)
    ensures mine.status == 200
    ensures byId == Response(404, Message(CarRoutes.NotFound))
    ensures listed == Response(404, Message(CarRoutes.NoneForCompany))
  {
    PlateBodyFacts();
    var cars := new Collection<CarRoutes.Car>(MongooseCasts);
    assert IsObjectIdText(FirstId);
    CanonicalIdFixedPoints(FirstId);
    assert !HasKey(cars.docs, "u1", CarRoutes.PlateNumber, "ab123cd");
    mine := CarRoutes.Create(cars, "u1", PlateBody, FirstId, NoFault);
    assert cars.docs == map[FirstId := Doc("u1", CarRoutes.Normalised(PlateBody))];
    assert CanonicalId(FirstId) == FirstId;
    assert !Owns(cars.docs, "u2", CanonicalId(FirstId));
    byId := CarRoutes.GetById(cars, "u2", FirstId, NoFault);
    assert OwnedBy(cars.docs, "u2") == map[];
    listed := CarRoutes.List(cars, "u2", NoFault);
  }


  lemma CategoryItemsExample(s: string)
    requires s == "b, ce"
    ensures Split(s, ',') == ["b", " ce"]
  {
    assert s == "b" + [','] + " ce";
    SplitPrefix("b", ',', " ce");
    SplitWhole(" ce", ',');
  }

  /** A lower-case letter is not white space. */
  lemma LowerIsNotSpace(c: char)
    requires IsLowerAscii(c)
    ensures !IsJsSpace(c)
  {
  }

  /** A string that starts and ends with a lower-case letter is its own trim. */
  lemma LowerEndsTrimNoop(s: string)
    requires s != [] && IsLowerAscii(s[0]) && IsLowerAscii(s[|s| - 1])
    ensures Trim(s) == s
  {
    LowerIsNotSpace(s[0]);
    LowerIsNotSpace(s[|s| - 1]);
    TrimNoop(s);
  }

  /** One leading blank before a lower-case word is all that `trim` drops. */
  lemma OneBlankTrimmed(s: string)
    requires |s| >= 2 && s[0] == ' ' && IsLowerAscii(s[1]) && IsLowerAscii(s[|s| - 1])
    ensures Trim(s) == s[1..]
  {
    var w := s[1..];
    assert IsJsSpace(s[0]);
    LowerIsNotSpace(s[1]);
    assert w[0] == s[1];
    assert TrimStart(w) == w;
    assert TrimStart(s) == w;
    assert w[|w| - 1] == s[|s| - 1];
    LowerEndsTrimNoop(w);
  }

  lemma CodesExample(b: string, ce: string)
    requires b == "b" && ce == " ce"
    ensures CategoryCode(b) == "B" && CategoryCode(ce) == "CE"
  {
    CodeOfB(b);
    CodeOfCe(ce);
  }

  /** A one-letter lower-case category is stored as that letter upper-cased. */
  lemma CodeOfLetter(c: char)
    requires IsLowerAscii(c)
    ensures CategoryCode([c]) == [UpperChar(c)]
  {
    LowerEndsTrimNoop([c]);
    var u := ToUpperAscii([c]);
    assert |u| == 1 && u[0] == UpperChar(c);
  }

  lemma CodeOfB(b: string)
    requires b == "b"
    ensures CategoryCode(b) == "B"
  {
    assert b == ['b'];
    CodeOfLetter('b');
  }

  lemma CodeOfCe(ce: string)
    requires ce == " ce"
    ensures CategoryCode(ce) == "CE"
  {
    assert ce[0] == ' ' && ce[1] == 'c' && ce[2] == 'e';
    OneBlankTrimmed(ce);
    var w := ce[1..];
    var v := ToUpperAscii(w);
    assert v[0] == 'C' && v[1] == 'E';
  }

  /** The categories `"b, ce"` are stored as the codes `B` and `CE`. */
  lemma CategoriesExample(s: string)
    requires s == "b, ce"
    ensures NormalizeCategories(s) == ["B", "CE"]
  {
    var codes := NormalizeCategories(s);
    var items := Split(s, ',');
    CategoryItemsExample(s);
    assert |codes| == |items| == 2;
    CodesExample(items[0], items[1]);
    assert codes[0] == CategoryCode(items[0]);
    assert codes[1] == CategoryCode(items[1]);
  }

  /**
   * An owner's car requested with its id spelt in upper case: the cast
   * ignores the case of the digits and the guard accepts `A`..`F`, so the
   * car is found, and the response carries its stored id.
   */
  method UpperCaseCarId() returns (mine: Response<CarRoutes.Car>, byId: Response<CarRoutes.Car>)
    ensures mine.status == 200
    ensures byId.status == 200 && byId.payload.One? && byId.payload.id == FirstId
    ensures byId.payload.doc.value.number == "AB123CD"
  {
    PlateBodyFacts();
    var cars := new Collection<CarRoutes.Car>(MongooseCasts);
    assert IsObjectIdText(FirstId) && IsHex24(FirstIdUpper);
    CanonicalIdFixedPoints(FirstId);
    CaseDoesNotMatter(FirstIdUpper, FirstId);
    assert !HasKey(cars.docs, "u1", CarRoutes.PlateNumber, "ab123cd");
    mine := CarRoutes.Create(cars, "u1", PlateBody, FirstId, NoFault);
    assert Owns(cars.docs, "u1", CanonicalId(FirstIdUpper));
    byId := CarRoutes.GetById(cars, "u1", FirstIdUpper, NoFault);
  }
}
