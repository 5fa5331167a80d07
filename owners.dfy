/**
 Resolution of the new owner's name to a user id: the site's users are
 filtered by exact (case-sensitive) name equality and the number of matches
 decides between "does not exist", a single id, and "multiple users".
 */
module Owners {
  import opened Results
  import opened UserId

  /** A site user: the display name and the user's string form `str(user)`. */
  datatype User = User(name: string, repr: string)

  datatype LookupError =
    | NoSuchUser                    // "does not exist as user in <site>"
    | MultipleUsers                 // "returned multiple users"
    | UnreadableUser(ExtractError)  // the IndexError of the id extraction

  /** `list(filter(lambda x: x.name == name, users))`: the users carrying exactly `name`. */
  function Matching(users: seq<User>, name: string): (r: seq<User>)
    ensures |r| <= |users|
    ensures forall u :: u in r ==> u in users && u.name == name
    ensures forall u :: u in users && u.name == name ==> u in r
  {
    if users == [] then []
    else (if users[0].name == name then [users[0]] else []) + Matching(users[1..], name)
  }

  /** The number of positions in `users` whose name is `name`, counted independently of `Matching`. */
  function NameCount(users: seq<User>, name: string): nat {
    if users == [] then 0
    else NameCount(users[..|users| - 1], name) + (if users[|users| - 1].name == name then 1 else 0)
  }

  /** The filter keeps one user per matching position. */
  lemma {:induction false} MatchingCount(users: seq<User>, name: string)
    ensures |Matching(users, name)| == NameCount(users, name)
    decreases |users|
  {
    if users != [] {
      MatchingCount(users[1..], name);
      NameCountFront(users, name);
    }
  }

  /** `NameCount` can equally be taken from the front of the list. */
  lemma {:induction false} NameCountFront(users: seq<User>, name: string)
    requires users != []
    ensures NameCount(users, name) == (if users[0].name == name then 1 else 0) + NameCount(users[1..], name)
    decreases |users|
  {
    if |users| > 1 {
      var n := |users| - 1;
      NameCountFront(users[..n], name);
      assert users[..n][1..] == users[1..][..n - 1];
    }
  }

  /** No position carries the name exactly when the count is zero. */
  lemma {:induction false} NameCountZero(users: seq<User>, name: string)
    ensures NameCount(users, name) == 0 <==> forall i :: 0 <= i < |users| ==> users[i].name != name
    decreases |users|
  {
    if users != [] {
      var n := |users| - 1;
      NameCountZero(users[..n], name);
      assert forall i :: 0 <= i < n ==> users[..n][i] == users[i];
    }
  }

  /** Exactly one position `i` carries the name exactly when the count is one. */
  lemma {:induction false} NameCountOne(users: seq<User>, name: string, i: nat)
    requires i < |users| && users[i].name == name
    ensures NameCount(users, name) == 1 <==> forall j :: 0 <= j < |users| && j != i ==> users[j].name != name
    decreases |users|
  {
    var n := |users| - 1;
    var init := users[..n];
    assert forall j :: 0 <= j < n ==> init[j] == users[j];
    if i == n {
      NameCountZero(init, name);
    } else {
      NameCountOne(init, name, i);
      NameCountPositive(init, name, i);
    }
  }

  /** A position with the name makes the count positive. */
  lemma {:induction false} NameCountPositive(users: seq<User>, name: string, i: nat)
    requires i < |users| && users[i].name == name
    ensures NameCount(users, name) >= 1
    decreases |users|
  {
    var n := |users| - 1;
    if i < n {
      NameCountPositive(users[..n], name, i);
    }
  }

  /**
   The owner lookup: 0 matches is "does not exist", 2 or more is "multiple
   users", and exactly one has its id extracted from its string form.
   */
  function ResolveOwner(users: seq<User>, name: string): (r: Result<string, LookupError>)
    ensures r == Err(NoSuchUser) <==> NameCount(users, name) == 0
    ensures r == Err(MultipleUsers) <==> NameCount(users, name) >= 2
    ensures r.Ok? ==> NameCount(users, name) == 1
  {
    MatchingCount(users, name);
    var query := Matching(users, name);
    if |query| == 0 then Err(NoSuchUser)
    else if |query| == 1 then
      match ExtractUserId(query[0].repr)
      case Ok(id) => Ok(id)
      case Err(e) => Err(UnreadableUser(e))
    else Err(MultipleUsers)
  }

  /** "Does not exist" exactly when no user has the name, compared exactly. */
  lemma ResolveOwnerNotFound(users: seq<User>, name: string)
    ensures ResolveOwner(users, name) == Err(NoSuchUser) <==> forall i :: 0 <= i < |users| ==> users[i].name != name
  {
    NameCountZero(users, name);
  }

  /** "Multiple users" exactly when two different positions have the name. */
  lemma ResolveOwnerAmbiguous(users: seq<User>, name: string)
    ensures ResolveOwner(users, name) == Err(MultipleUsers) <==>
      exists i, j :: 0 <= i < j < |users| && users[i].name == name && users[j].name == name
  {
    MatchingCount(users, name);
    NameCountZero(users, name);
    if exists i, j :: 0 <= i < j < |users| && users[i].name == name && users[j].name == name {
      var i, j :| 0 <= i < j < |users| && users[i].name == name && users[j].name == name;
      NameCountOne(users, name, i);
    }
    if ResolveOwner(users, name) == Err(MultipleUsers) {
      var i :| 0 <= i < |users| && users[i].name == name;
      NameCountOne(users, name, i);
      var j :| 0 <= j < |users| && j != i && users[j].name == name;
      if j < i {
        assert 0 <= j < i < |users| && users[j].name == name && users[i].name == name;
      } else {
        assert 0 <= i < j < |users| && users[i].name == name && users[j].name == name;
      }
    }
  }

  /**
   When exactly one position `i` has the name, the lookup's outcome is the
   extraction from that user's string form, and nothing else.
   */
  lemma ResolveOwnerUnique(users: seq<User>, name: string, i: nat)
    requires i < |users| && users[i].name == name
    requires forall j :: 0 <= j < |users| && j != i ==> users[j].name != name
    ensures ResolveOwner(users, name) == match ExtractUserId(users[i].repr)
      case Ok(id) => Ok(id)
      case Err(e) => Err(UnreadableUser(e))
  {
    MatchingCount(users, name);
    NameCountOne(users, name, i);
    var q := Matching(users, name);
    assert q[0] in q;
    assert users[i] in users;
    var k :| 0 <= k < |users| && users[k] == q[0];
    assert k == i;
  }

  /** A resolved id belongs to the one and only user with that name. */
  lemma ResolveOwnerFound(users: seq<User>, name: string)
    requires ResolveOwner(users, name).Ok?
    ensures exists i ::
      && 0 <= i < |users| && users[i].name == name
      && (forall j :: 0 <= j < |users| && j != i ==> users[j].name != name)
      && ExtractUserId(users[i].repr) == Ok(ResolveOwner(users, name).value)
  {
    MatchingCount(users, name);
    var q := Matching(users, name);
    assert q[0] in q;
    var i :| 0 <= i < |users| && users[i] == q[0];
    NameCountOne(users, name, i);
  }
}
