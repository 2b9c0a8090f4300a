/**
 * Identity resolution (app/dependencies.py): the split of the Authorization
 * header into scheme and token, and the create-or-update of the stored user
 * from a verified identity claim.
 */
module Identity {
  import opened Wrappers
  import opened Models

  // ---------------------------------------------------------------------------
  // The Authorization header

  /** Number of occurrences of `c` in `s`. */
  function Count(s: string, c: char): nat
  {
    if s == [] then 0 else (if s[0] == c then 1 else 0) + Count(s[1..], c)
  }

  /** Splitting on every occurrence of the separator, as Python's `str.split(sep)`
      does with an explicit separator: consecutive separators give empty parts and
      the empty string gives one empty part. */
  function Split(s: string, sep: char): (parts: seq<string>)
    ensures |parts| == Count(s, sep) + 1
    ensures forall i :: 0 <= i < |parts| ==> sep !in parts[i]
  {
    if s == [] then [""]
    else
      var rest := Split(s[1..], sep);
      if s[0] == sep then [""] + rest
      else [[s[0]] + rest[0]] + rest[1..]
  }

  /** The parts glued back together with the separator between them. */
  function Join(parts: seq<string>, sep: char): string
    requires |parts| >= 1
  {
    if |parts| == 1 then parts[0] else parts[0] + [sep] + Join(parts[1..], sep)
  }

  /** Joining the parts of a split gives the original string back. */
  lemma {:induction false} JoinSplit(s: string, sep: char)
    ensures Join(Split(s, sep), sep) == s
  {
    if s != [] {
      var rest := Split(s[1..], sep);
      JoinSplit(s[1..], sep);
      if s[0] == sep {
        assert Split(s, sep) == [""] + rest;
        assert ([""] + rest)[1..] == rest;
      } else {
        var parts := Split(s, sep);
        assert parts == [[s[0]] + rest[0]] + rest[1..];
        if |rest| == 1 {
          assert parts == [[s[0]] + rest[0]];
        } else {
          assert parts[1..] == rest[1..];
          assert Join(rest, sep) == rest[0] + [sep] + Join(rest[1..], sep);
        }
      }
    }
  }

  /** A string without the separator splits into itself alone. */
  lemma {:induction false} SplitWithoutSeparator(a: string, sep: char)
    requires sep !in a
    ensures Split(a, sep) == [a]
  {
    if a != [] {
      SplitWithoutSeparator(a[1..], sep);
      assert [a[0]] + a[1..] == a;
    }
  }

  /** A separator-free prefix followed by the separator becomes the first part. */
  lemma {:induction false} SplitAfterPrefix(a: string, sep: char, b: string)
    requires sep !in a
    ensures Split(a + [sep] + b, sep) == [a] + Split(b, sep)
  {
    if a == [] {
      assert ([sep] + b)[1..] == b;
    } else {
      assert (a + [sep] + b)[1..] == a[1..] + [sep] + b;
      SplitAfterPrefix(a[1..], sep, b);
      assert [a[0]] + a[1..] == a;
    }
  }

  /** Splitting a join of separator-free parts gives the parts back. */
  lemma {:induction false} SplitJoin(parts: seq<string>, sep: char)
    requires |parts| >= 1
    requires forall i :: 0 <= i < |parts| ==> sep !in parts[i]
    ensures Split(Join(parts, sep), sep) == parts
  {
    if |parts| == 1 {
      SplitWithoutSeparator(parts[0], sep);
    } else {
      SplitJoin(parts[1..], sep);
      SplitAfterPrefix(parts[0], sep, Join(parts[1..], sep));
      assert [parts[0]] + parts[1..] == parts;
    }
  }

  /** The token of an Authorization header such as "Bearer abc": the header must
      split on " " into exactly two parts, and the token is the second one;
      anything else is rejected with 401. */
  function BearerToken(header: string): (r: Result<string, HttpError>)
    ensures r.Success? <==> Count(header, ' ') == 1
    ensures r.Failure? ==> r.error == InvalidAuthToken
    ensures r.Success? ==> ' ' !in r.value
  {
    var parts := Split(header, ' ');
    if |parts| != 2 then Failure(InvalidAuthToken) else Success(parts[1])
  }

  /** An accepted header is the scheme, one space and the token. */
  lemma BearerTokenShape(header: string)
    requires BearerToken(header).Success?
    ensures var token := BearerToken(header).value;
      |token| < |header| && header[|header| - |token| - 1] == ' ' &&
      header[|header| - |token|..] == token && ' ' !in header[..|header| - |token| - 1]
  {
    var parts := Split(header, ' ');
    JoinSplit(header, ' ');
    assert Join(parts[1..], ' ') == parts[1];
    assert header == parts[0] + [' '] + parts[1];
  }

  /** A scheme and a token without spaces, joined by one space, yield that token. */
  lemma BearerTokenOf(scheme: string, token: string)
    requires ' ' !in scheme && ' ' !in token
    ensures BearerToken(scheme + " " + token) == Success(token)
  {
    SplitJoin([scheme, token], ' ');
    assert Join([token], ' ') == token;
  }

  // ---------------------------------------------------------------------------
  // Resolving the claim into a user

  /** The stored organization of a claim: none when the organization claim is
      empty, its single key when there is one, and a 500 error when there are
      several. */
  function ResolveOrganization(organizations: seq<string>): (r: Result<Option<string>, HttpError>)
    ensures r.Failure? <==> |organizations| > 1
    ensures r.Failure? ==> r.error == MultipleOrganizations
    ensures r == Success(None) <==> organizations == []
    ensures |organizations| == 1 ==> r == Success(Some(organizations[0]))
  {
    if organizations != [] then
      if |organizations| > 1 then Failure(MultipleOrganizations)
      else Success(Some(organizations[0]))
    else Success(None)
  }

  /** The user record a claim describes. */
  function ClaimedUser(claim: KeycloakClaim): (r: Result<User, HttpError>)
    ensures r.Failure? <==> |claim.organizations| > 1
    ensures r.Failure? ==> r.error == MultipleOrganizations
    ensures r.Success? ==> r.value.id == claim.sub && r.value.email == claim.email
    ensures r.Success? ==> r.value.organization == ResolveOrganization(claim.organizations).value
  {
    var org := ResolveOrganization(claim.organizations);
    if org.Failure? then Failure(org.error) else Success(User(claim.sub, claim.email, org.value))
  }

  /** The claim used by the service's own login test yields that user. */
  lemma ClaimWithOneOrganization()
    ensures ClaimedUser(KeycloakClaim("3c40da3a-483a-4736-b7e1-a85069298bd7", "olya.shavochkina@yandex.ru", ["murmurmur"]))
         == Success(User("3c40da3a-483a-4736-b7e1-a85069298bd7", "olya.shavochkina@yandex.ru", Some("murmurmur")))
  {
  }

  /** The user table, keyed by subject id. `commits` counts the writes made to it. */
  class UserStore {
    var users: map<string, User>
    ghost var commits: nat

    /** Every stored user sits under its own id. */
    ghost predicate Valid()
      reads this
    {
      forall id :: id in users ==> users[id].id == id
    }

    constructor ()
      ensures Valid() && users == map[] && commits == 0
    {
      users := map[];
      commits := 0;
    }

    /** Turns a claim into the stored user: a claim with several organizations is
        rejected before the store is read; an unknown subject is created; a known
        one has its email and organization overwritten when they differ, and is
        left unwritten when it already matches the claim. */
    method GetUser(claim: KeycloakClaim) returns (r: Result<User, HttpError>)
      requires Valid()
      modifies this
      ensures Valid()
      ensures r.Failure? <==> |claim.organizations| > 1
      ensures r.Failure? ==> r.error == MultipleOrganizations && users == old(users) && commits == old(commits)
      ensures r.Success? ==> r == ClaimedUser(claim) && users == old(users)[claim.sub := r.value]
      ensures r.Success? ==> users.Keys == old(users).Keys + {claim.sub}
      ensures forall id :: id in old(users) && id != claim.sub ==> users[id] == old(users)[id]
      ensures r.Success? && claim.sub in old(users) ==> r.value.id == old(users)[claim.sub].id
      ensures r.Success? ==>
        commits == old(commits) + (if claim.sub in old(users) && old(users)[claim.sub] == r.value then 0 else 1)
    {
      var claimed := ClaimedUser(claim);
      if claimed.Failure? {
        return claimed;
      }
      var current := claimed.value;
      if claim.sub !in users {
        users := users[claim.sub := current];
        commits := commits + 1;
        return Success(current);
      }
      var dbUser := users[claim.sub];
      if dbUser != current {
        dbUser := dbUser.(email := current.email, organization := current.organization);
        users := users[claim.sub := dbUser];
        commits := commits + 1;
      }
      return Success(dbUser);
    }
  }

  /** Logging in twice with the same claim writes at most once and returns the same user. */
  method LoginTwice(store: UserStore, claim: KeycloakClaim) returns (first: Result<User, HttpError>, second: Result<User, HttpError>)
    requires store.Valid()
    modifies store
    ensures store.Valid()
    ensures first == second
    ensures first.Success? ==> store.users == old(store.users)[claim.sub := first.value]
    ensures first.Failure? ==> store.users == old(store.users)
    ensures store.commits <= old(store.commits) + 1
  {
    first := store.GetUser(claim);
    second := store.GetUser(claim);
  }
}
