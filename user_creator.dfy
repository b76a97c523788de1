/**
 * The client component that registers a signed-in user once: the default
 * values it fills into the request body, and the `userCreated` flag that
 * allows requests until one of them succeeds. React's effect scheduling and
 * `fetch` are not modelled: each run of the effect is one call, given the
 * hook values, the clock and the request's outcome.
 */
module UserCreator {
  import opened Wrappers
  import opened Decimal
  import CreateUser

  /** The fields of the identity provider's user object that the component reads. */
  datatype ClerkUser = ClerkUser(
    primaryEmail: Option<string>,  // `primaryEmailAddress?.emailAddress`
    username: Option<string>,
    firstName: Option<string>,
    lastName: Option<string>,
    imageUrl: string)

  const UsernamePrefix := "user_"
  const DefaultFirstName := "Unknown"
  const DefaultLastName := "User"

  /** JavaScript truthiness of an optional string: present and non-empty. */
  predicate Truthy(s: Option<string>) {
    s.Some? && s.value != ""
  }

  /** `value || fallback` for an optional string. */
  function OrElse(value: Option<string>, fallback: string): string {
    if Truthy(value) then value.value else fallback
  }

  /** The placeholder username `user_<now>`. */
  function PlaceholderUsername(now: nat): string {
    UsernamePrefix + NatToDecimal(now)
  }

  /** Reads the timestamp back out of a placeholder username. */
  function PlaceholderTimestamp(name: string): Option<nat> {
    if |name| > |UsernamePrefix| && name[..|UsernamePrefix|] == UsernamePrefix && AllDigits(name[|UsernamePrefix|..])
    then Some(DecimalToNat(name[|UsernamePrefix|..]))
    else None
  }

  /**
   * The request body built from the user at clock reading `now` (`Date.now()`):
   * email and photo passed through, the three names defaulted when falsy.
   */
  function BuildUserData(user: ClerkUser, now: nat): (b: CreateUser.UserBody)
    ensures b.email == user.primaryEmail
    ensures b.photo == Some(user.imageUrl)
    ensures b.username.Some? && b.firstName.Some? && b.lastName.Some?
    ensures b.username.value != "" && b.firstName.value != "" && b.lastName.value != ""
    ensures Truthy(user.username) ==> b.username == user.username
    ensures !Truthy(user.username) ==> b.username == Some(PlaceholderUsername(now))
    ensures !Truthy(user.username) ==> PlaceholderTimestamp(b.username.value) == Some(now)
    ensures b.firstName == Some(if Truthy(user.firstName) then user.firstName.value else DefaultFirstName)
    ensures b.lastName == Some(if Truthy(user.lastName) then user.lastName.value else DefaultLastName)
  {
    PlaceholderRoundTrip(now);
    CreateUser.UserBody(
      user.primaryEmail,
      Some(OrElse(user.username, PlaceholderUsername(now))),
      Some(OrElse(user.firstName, DefaultFirstName)),
      Some(OrElse(user.lastName, DefaultLastName)),
      Some(user.imageUrl))
  }

  /** The timestamp in a placeholder username can be read back. */
  lemma PlaceholderRoundTrip(now: nat)
    ensures PlaceholderTimestamp(PlaceholderUsername(now)) == Some(now)
  {
    var name := PlaceholderUsername(now);
    assert name[..|UsernamePrefix|] == UsernamePrefix;
    assert name[|UsernamePrefix|..] == NatToDecimal(now);
    DecimalRoundTrip(now);
  }

  /** Placeholders made at different times differ. */
  lemma PlaceholdersDistinct(t1: nat, t2: nat)
    requires t1 != t2
    ensures PlaceholderUsername(t1) != PlaceholderUsername(t2)
  {
    PlaceholderRoundTrip(t1);
    PlaceholderRoundTrip(t2);
  }

  /**
   * A body built here and received by the endpoint for a new identity is
   * stored with non-empty username, first and last names, the auth id as key.
   */
  lemma RegisteredUserHasNames(records: seq<CreateUser.User>, clerkId: string, user: ClerkUser, now: nat)
    requires clerkId != "" && forall u :: u in records ==> u.clerkId != clerkId
    ensures var r := CreateUser.Post(records, Some(clerkId), CreateUser.Fields(BuildUserData(user, now)), CreateUser.NoFault);
      && |r.records| == |records| + 1
      && var stored := r.records[|records|];
      && stored.clerkId == clerkId
      && stored.username.Some? && stored.username.value != ""
      && stored.firstName.Some? && stored.firstName.value != ""
      && stored.lastName.Some? && stored.lastName.value != ""
  {
  }

  /** What the request to the create-user endpoint came to: `response.ok`, a non-ok response, or a throw. */
  datatype FetchOutcome = ResponseOk | ResponseNotOk | Threw

  /** The hook values of one run of the effect, with the clock and the request's outcome. */
  datatype EffectRun = EffectRun(
    isLoaded: bool,
    isSignedIn: bool,
    user: Option<ClerkUser>,
    now: nat,
    outcome: FetchOutcome)

  /** The flag after a run, and the body sent in it, if any. */
  datatype Step = Step(created: bool, sent: Option<CreateUser.UserBody>)

  /** The guard `isLoaded && isSignedIn && user && !userCreated`. */
  predicate MaySend(created: bool, run: EffectRun) {
    run.isLoaded && run.isSignedIn && run.user.Some? && !created
  }

  /** One run of the effect from flag value `created`. */
  function RunEffect(created: bool, run: EffectRun): (s: Step)
    ensures s.sent.Some? <==> MaySend(created, run)
    ensures s.sent.Some? ==> s.sent == Some(BuildUserData(run.user.value, run.now))
    ensures s.created <==> created || (s.sent.Some? && run.outcome == ResponseOk)
  {
    if MaySend(created, run) then
      Step(run.outcome == ResponseOk, Some(BuildUserData(run.user.value, run.now)))
    else
      Step(created, None)
  }

  /** The flag after a sequence of runs. */
  function FinalCreated(created: bool, runs: seq<EffectRun>): bool
    decreases |runs|
  {
    if runs == [] then created else FinalCreated(RunEffect(created, runs[0]).created, runs[1..])
  }

  /** The number of requests sent over a sequence of runs, and how many of them succeeded. */
  function SentCount(created: bool, runs: seq<EffectRun>): nat
    decreases |runs|
  {
    if runs == [] then 0
    else
      var s := RunEffect(created, runs[0]);
      (if s.sent.Some? then 1 else 0) + SentCount(s.created, runs[1..])
  }

  function SucceededCount(created: bool, runs: seq<EffectRun>): nat
    decreases |runs|
  {
    if runs == [] then 0
    else
      var s := RunEffect(created, runs[0]);
      (if s.sent.Some? && runs[0].outcome == ResponseOk then 1 else 0) + SucceededCount(s.created, runs[1..])
  }

  /**
   * Over any sequence of runs: once the flag is set nothing is sent any more,
   * at most one request ever succeeds, and the flag ends up set exactly when
   * it started set or some request succeeded.
   */
  lemma {:induction false} OnceOnly(created: bool, runs: seq<EffectRun>)
    ensures created ==> SentCount(created, runs) == 0 && FinalCreated(created, runs)
    ensures SucceededCount(created, runs) <= (if created then 0 else 1)
    ensures FinalCreated(created, runs) <==> created || SucceededCount(created, runs) == 1
    decreases |runs|
  {
    if runs != [] {
      OnceOnly(RunEffect(created, runs[0]).created, runs[1..]);
    }
  }

  /** The component's state: the `userCreated` flag. */
  class Creator {
    var userCreated: bool

    constructor ()
      ensures !userCreated
    {
      userCreated := false;
    }

    /** One run of the effect: returns the body sent, if any, and updates the flag. */
    method CreateUserInDb(run: EffectRun) returns (sent: Option<CreateUser.UserBody>)
      modifies this
      ensures Step(userCreated, sent) == RunEffect(old(userCreated), run)
    {
      if run.isLoaded && run.isSignedIn && run.user.Some? && !userCreated {
        var userData := BuildUserData(run.user.value, run.now);
        sent := Some(userData);
        if run.outcome == ResponseOk {
          userCreated := true;
        }
      } else {
        sent := None;
      }
    }
  }
}
