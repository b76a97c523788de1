/**
 * The find-or-create user endpoint (`POST /api/create-user`). The users
 * collection is a sequence of records, found by `clerkId` and appended to.
 * The authenticated id comes from the auth context; the store's failures
 * (connecting, finding, creating) are given as a `Fault` parameter.
 */
module CreateUser {
  import opened Wrappers

  /** The JSON body the client sends; a field it leaves out is `None`. */
  datatype UserBody = UserBody(
    email: Option<string>,
    username: Option<string>,
    firstName: Option<string>,
    lastName: Option<string>,
    photo: Option<string>)

  /**
   * The outcome of `req.json()`: a body that does not parse, the JSON value
   * `null` (whose fields cannot be read), or any other value, read field by field.
   */
  datatype RequestBody = Unparsable | NullBody | Fields(fields: UserBody)

  /** A stored user record. */
  datatype User = User(
    clerkId: string,
    email: Option<string>,
    username: Option<string>,
    firstName: Option<string>,
    lastName: Option<string>,
    photo: Option<string>)

  /**
   * Which call throws, if any: the auth context (`auth()`), connecting or
   * `User.findOne`, or `createUser`.
   */
  datatype Fault = NoFault | AuthFails | LookupFails | CreateFails

  datatype ResponseBody =
    | ErrorBody(error: string)
    | UserResult(user: User, message: string)  // `{ success: true, user, message }`

  datatype Response = Response(status: nat, body: ResponseBody)

  /** The store after a request, and the response sent. */
  datatype PostResult = PostResult(records: seq<User>, response: Response)

  const Unauthorized := Response(401, ErrorBody("Unauthorized"))
  const Failure := Response(500, ErrorBody("Failed to create user"))
  const AlreadyExistsMessage := "User already exists"
  const CreatedMessage := "User created"

  /** At most one record per `clerkId`. */
  ghost predicate UniqueClerkIds(records: seq<User>) {
    forall i, j :: 0 <= i < j < |records| ==> records[i].clerkId != records[j].clerkId
  }

  /** `User.findOne({ clerkId })`: the first record with that id. */
  function FindByClerkId(records: seq<User>, clerkId: string): (r: Option<User>)
    ensures r.Some? ==> r.value in records && r.value.clerkId == clerkId
    ensures r.None? <==> forall u :: u in records ==> u.clerkId != clerkId
    decreases |records|
  {
    if records == [] then None
    else if records[0].clerkId == clerkId then Some(records[0])
    else FindByClerkId(records[1..], clerkId)
  }

  /** The number of records with the given `clerkId`. */
  function CountClerkId(records: seq<User>, clerkId: string): nat
    decreases |records|
  {
    if records == [] then 0
    else (if records[|records| - 1].clerkId == clerkId then 1 else 0) + CountClerkId(records[..|records| - 1], clerkId)
  }

  /** The record inserted for a new identity: id from the auth context, the rest from the body. */
  function NewUser(clerkId: string, body: UserBody): User {
    User(clerkId, body.email, body.username, body.firstName, body.lastName, body.photo)
  }

  /**
   * What the endpoint does, as a function of the store before the request,
   * the auth context's `userId`, the request body and the store's faults.
   */
  function Post(records: seq<User>, userId: Option<string>, body: RequestBody, fault: Fault): (r: PostResult)
    // The only answers are 200, 401 and 500.
    ensures r.response.status in {200, 401, 500}
    // 401 exactly when `auth()` returned no id.
    ensures r.response == Unauthorized <==> fault != AuthFails && (userId.None? || userId == Some(""))
    // Every 200 carries the record with the caller's id.
    ensures r.response.status == 200 ==>
      r.response.body.UserResult? && userId.Some? && r.response.body.user.clerkId == userId.value
  {
    if fault == AuthFails then PostResult(records, Failure)
    else if userId.None? || userId.value == "" then PostResult(records, Unauthorized)
    else if body.Unparsable? || fault == LookupFails then PostResult(records, Failure)
    else match FindByClerkId(records, userId.value)
      case Some(existing) => PostResult(records, Response(200, UserResult(existing, AlreadyExistsMessage)))
      case None =>
        if body.NullBody? || fault == CreateFails then PostResult(records, Failure)
        else
          var user := NewUser(userId.value, body.fields);
          PostResult(records + [user], Response(200, UserResult(user, CreatedMessage)))
  }

  /** Without an authenticated id the answer is 401 whatever the store holds or does, and the store is untouched. */
  lemma UnauthenticatedIgnoresStore(records1: seq<User>, records2: seq<User>, userId: Option<string>,
                                   body1: RequestBody, body2: RequestBody, fault1: Fault, fault2: Fault)
    requires userId.None? || userId == Some("")
    requires fault1 != AuthFails && fault2 != AuthFails
    ensures Post(records1, userId, body1, fault1).response == Post(records2, userId, body2, fault2).response == Unauthorized
    ensures Post(records1, userId, body1, fault1).records == records1
  {
  }

  /** An existing user is returned unchanged and nothing is inserted. */
  lemma ExistingUserReturned(records: seq<User>, userId: string, body: RequestBody, fault: Fault, existing: User)
    requires existing in records && existing.clerkId == userId && UniqueClerkIds(records)
    requires userId != "" && !body.Unparsable? && (fault == NoFault || fault == CreateFails)
    ensures Post(records, Some(userId), body, fault) == PostResult(records, Response(200, UserResult(existing, AlreadyExistsMessage)))
  {
  }

  /** A new identity gets exactly one record, keyed by the auth id, the other fields copied from the body. */
  lemma NewUserInserted(records: seq<User>, userId: string, body: UserBody)
    requires userId != "" && forall u :: u in records ==> u.clerkId != userId
    ensures var u := User(userId, body.email, body.username, body.firstName, body.lastName, body.photo);
      Post(records, Some(userId), Fields(body), NoFault) == PostResult(records + [u], Response(200, UserResult(u, CreatedMessage)))
    ensures CountClerkId(Post(records, Some(userId), Fields(body), NoFault).records, userId) == 1
  {
    var u := NewUser(userId, body);
    var after := records + [u];
    assert after[..|after| - 1] == records;
    NoMatchCountsZero(records, userId);
  }

  /** Every failure answers 500 with the fixed message and leaves the store as it was. */
  lemma FailureChangesNothing(records: seq<User>, userId: Option<string>, body: RequestBody, fault: Fault)
    ensures var r := Post(records, userId, body, fault);
      r.response.status == 500 ==> r.response == Failure && r.records == records
  {
  }

  /**
   * Every thrown error, and nothing else, answers 500 "Failed to create user":
   * `auth()` throwing, an unparsable body, a failed connection or lookup, and,
   * for a new id only, a `null` body (reading its fields throws) or a failed
   * insert. The store is unchanged in each of these cases.
   */
  lemma FailureExactlyOnThrow(records: seq<User>, userId: Option<string>, body: RequestBody, fault: Fault)
    ensures var r := Post(records, userId, body, fault);
      (r.response == Failure) <==>
        (|| fault == AuthFails
         || (userId.Some? && userId.value != "" &&
             (body.Unparsable? || fault == LookupFails ||
              (FindByClerkId(records, userId.value).None? && (body.NullBody? || fault == CreateFails)))))
    ensures var r := Post(records, userId, body, fault);
      r.response == Failure ==> r.records == records
  {
  }

  /** The store changes only by one appended record, and only with a 200 "User created" answer. */
  lemma StoreGrowsOnlyOnCreate(records: seq<User>, userId: Option<string>, body: RequestBody, fault: Fault)
    ensures var r := Post(records, userId, body, fault);
      || r.records == records
      || (&& r.response.status == 200 && r.response.body.UserResult? && r.response.body.message == CreatedMessage
          && r.records == records + [r.response.body.user])
  {
  }

  lemma {:induction false} NoMatchCountsZero(records: seq<User>, clerkId: string)
    requires forall u :: u in records ==> u.clerkId != clerkId
    ensures CountClerkId(records, clerkId) == 0
    decreases |records|
  {
    if records != [] {
      NoMatchCountsZero(records[..|records| - 1], clerkId);
    }
  }

  /** Uniqueness means at most one record per id. */
  lemma {:induction false} UniqueCountsAtMostOne(records: seq<User>, clerkId: string)
    requires UniqueClerkIds(records)
    ensures CountClerkId(records, clerkId) <= 1
    decreases |records|
  {
    if records != [] {
      var init := records[..|records| - 1];
      assert UniqueClerkIds(init);
      UniqueCountsAtMostOne(init, clerkId);
      if records[|records| - 1].clerkId == clerkId {
        assert forall u :: u in init ==> u.clerkId != clerkId;
        NoMatchCountsZero(init, clerkId);
      }
    }
  }

  /** Every request keeps the store free of duplicate ids. */
  lemma PostKeepsUnique(records: seq<User>, userId: Option<string>, body: RequestBody, fault: Fault)
    requires UniqueClerkIds(records)
    ensures UniqueClerkIds(Post(records, userId, body, fault).records)
  {
  }

  /**
   * Calling the endpoint twice with the same id leaves at most one record for
   * it, and once the first call has answered 200 the second changes nothing.
   */
  lemma {:induction false} RepeatedPostIsIdempotent(records: seq<User>, userId: string,
                                                    body1: RequestBody, body2: RequestBody, fault1: Fault, fault2: Fault)
    requires UniqueClerkIds(records)
    ensures var first := Post(records, Some(userId), body1, fault1);
      var second := Post(first.records, Some(userId), body2, fault2);
      && CountClerkId(second.records, userId) <= 1
      && (first.response.status == 200 ==> second.records == first.records)
  {
    var first := Post(records, Some(userId), body1, fault1);
    PostKeepsUnique(records, Some(userId), body1, fault1);
    PostKeepsUnique(first.records, Some(userId), body2, fault2);
    UniqueCountsAtMostOne(Post(first.records, Some(userId), body2, fault2).records, userId);
    if first.response.status == 200 {
      assert first.response.body.user in first.records;
    }
  }

  /** Two distinct new identities give two new records. */
  lemma TwoIdentitiesTwoRecords(records: seq<User>, id1: string, id2: string, body1: UserBody, body2: UserBody)
    requires id1 != "" && id2 != "" && id1 != id2
    requires forall u :: u in records ==> u.clerkId != id1 && u.clerkId != id2
    ensures var first := Post(records, Some(id1), Fields(body1), NoFault);
      var second := Post(first.records, Some(id2), Fields(body2), NoFault);
      && |second.records| == |records| + 2
      && second.records[|records|].clerkId == id1 && second.records[|records| + 1].clerkId == id2
  {
  }

  /** The users collection, updated in place by the endpoint. */
  class UserCollection {
    var records: seq<User>

    ghost predicate Valid()
      reads this
    {
      UniqueClerkIds(records)
    }

    constructor ()
      ensures Valid() && records == []
    {
      records := [];
    }

    /** `User.findOne({ clerkId })`, scanning the collection. */
    method FindOne(clerkId: string) returns (found: Option<User>)
      ensures found == FindByClerkId(records, clerkId)
    {
      var i := 0;
      while i < |records|
        invariant 0 <= i <= |records|
        invariant FindByClerkId(records, clerkId) == FindByClerkId(records[i..], clerkId)
      {
        if records[i].clerkId == clerkId {
          return Some(records[i]);
        }
        assert records[i..][1..] == records[i + 1..];
        i := i + 1;
      }
      return None;
    }

    /** `createUser`: appends one record. */
    method Insert(user: User)
      modifies this
      ensures records == old(records) + [user]
    {
      records := records + [user];
    }

    /** The `POST` handler. */
    method HandlePost(userId: Option<string>, body: RequestBody, fault: Fault) returns (response: Response)
      requires Valid()
      modifies this
      ensures Valid()
      ensures PostResult(records, response) == Post(old(records), userId, body, fault)
    {
      if fault == AuthFails {
        return Failure;
      }
      if userId.None? || userId.value == "" {
        return Unauthorized;
      }
      if body.Unparsable? || fault == LookupFails {
        return Failure;
      }
      var existing := FindOne(userId.value);
      if existing.Some? {
        return Response(200, UserResult(existing.value, AlreadyExistsMessage));
      }
      if body.NullBody? || fault == CreateFails {
        return Failure;
      }
      var user := NewUser(userId.value, body.fields);
      Insert(user);
      response := Response(200, UserResult(user, CreatedMessage));
    }
  }
}
