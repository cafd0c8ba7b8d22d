/**
 * The `Account` data holder: credentials, the two scraped collections
 * (`following`, `followers`) and the two derived gaps
 * (`not_followed_by`, `not_following_back`), with the name-based getters,
 * the append operation and the two gap evaluations.
 */
module Accounts {
  import opened Wrappers
  import opened Text
  import opened Collections

  /** The four collections an account holds, looked up by the attribute name `_<name>`. */
  datatype CollectionName = Following | Followers | NotFollowedBy | NotFollowingBack
  {
    /** The public collection name that selects this collection. */
    function Key(): (k: string)
    {
      match this
      case Following => "following"
      case Followers => "followers"
      case NotFollowedBy => "not_followed_by"
      case NotFollowingBack => "not_following_back"
    }

    /** The two collections the append operation accepts. */
    predicate Writable()
    {
      this == Following || this == Followers
    }
  }

  /** The collection a name selects, by exact string match; no other name selects one. */
  function ParseName(name: string): (c: Option<CollectionName>)
    ensures c.Some? ==> c.value.Key() == name
  {
    if name == "following" then Some(Following)
    else if name == "followers" then Some(Followers)
    else if name == "not_followed_by" then Some(NotFollowedBy)
    else if name == "not_following_back" then Some(NotFollowingBack)
    else None
  }

  /** The collection a name selects for appending: only `following` and `followers`. */
  function ParseWritable(name: string): (c: Option<CollectionName>)
    ensures c.Some? ==> c.value.Writable() && c.value.Key() == name
  {
    match ParseName(name)
    case Some(c) => if c.Writable() then Some(c) else None
    case None => None
  }

  /** Every collection is selected by its own name: `ParseName` inverts `Key`. */
  lemma ParseKey(c: CollectionName)
    ensures ParseName(c.Key()) == Some(c)
    ensures ParseWritable(c.Key()) == if c.Writable() then Some(c) else None
  {
    match c
    case Following =>
    case Followers =>
    case NotFollowedBy =>
      assert c.Key() != "following" && c.Key() != "followers";
    case NotFollowingBack =>
      assert c.Key()[4..] != "followers";
      assert c.Key() != "following" && c.Key() != "not_followed_by";
  }

  /** Collection names are written in lower-case letters and underscores. */
  lemma KeyIsLowerIdentifier(c: CollectionName)
    ensures |c.Key()| > 0 && IsLowerIdentifier(c.Key())
  {
    match c
    case Following =>
    case Followers =>
    case NotFollowedBy =>
    case NotFollowingBack =>
  }

  /** Every collection name is already normalised, so size and append accept it as it is. */
  lemma KeyIsNormal(c: CollectionName)
    ensures Normalise(c.Key()) == c.Key()
  {
    KeyIsLowerIdentifier(c);
    LowerIdentifierIsNormal(c.Key());
  }

  datatype Error =
    | InvalidCollection(name: string)  // no collection has the attribute name `_<name>`
    | NotSubscriptable                 // `self[key]` on an object without `__getitem__`

  class Account {
    var username: string
    var password: string
    var following: seq<string>
    var followers: seq<string>
    var notFollowedBy: seq<string>
    var notFollowingBack: seq<string>

    /** The derived collections list each username once, as `list(set(...))` does. */
    ghost predicate Valid()
      reads this
    {
      NoDuplicates(notFollowedBy) && NoDuplicates(notFollowingBack)
    }

    /** The credentials are stored as given and every collection starts empty. */
    constructor (username: string, password: string)
      ensures Valid()
      ensures GetUsername() == username && GetPassword() == password
      ensures following == [] && followers == [] && notFollowedBy == [] && notFollowingBack == []
    {
      this.username := username;
      this.password := password;
      following, followers := [], [];
      notFollowedBy, notFollowingBack := [], [];
    }

    function GetUsername(): (u: string)
      reads this
    {
      username
    }

    function GetPassword(): (p: string)
      reads this
    {
      password
    }

    /** The field that stores a collection. */
    function Collection(c: CollectionName): (users: seq<string>)
      reads this
    {
      match c
      case Following => following
      case Followers => followers
      case NotFollowedBy => notFollowedBy
      case NotFollowingBack => notFollowingBack
    }

    /**
     * The collection the raw `name` selects (no trimming, no case folding),
     * or `InvalidCollection(name)` when no collection has that name.
     */
    function GetCollection(name: string): (r: Result<seq<string>, Error>)
      reads this
      ensures r.Ok? <==> name in {"following", "followers", "not_followed_by", "not_following_back"}
      ensures forall c: CollectionName :: c.Key() == name ==> r == Ok(Collection(c))
      ensures r.Err? ==> r.error == InvalidCollection(name)
    {
      match ParseName(name)
      case Some(c) => Ok(Collection(c))
      case None => Err(InvalidCollection(name))
    }

    /**
     * The size of the collection `name.strip().lower()` selects: the length
     * of what `GetCollection` returns for the normalised name, with the same error.
     */
    function GetTotalFromCollection(name: string): (r: Result<nat, Error>)
      reads this
      ensures GetCollection(Normalise(name)).Ok? ==> r == Ok(|GetCollection(Normalise(name)).value|)
      ensures GetCollection(Normalise(name)).Err? ==> r == Err(GetCollection(Normalise(name)).error)
    {
      var key := Normalise(name);
      match ParseName(key)
      case Some(c) => Ok(|Collection(c)|)
      case None => Err(InvalidCollection(key))
    }

    /**
     * Appends `usernames` to the writable collection `name.strip().lower()`
     * selects, in order and keeping duplicates, and returns how many were
     * given; every other field is left alone. Any other name is refused with
     * nothing changed.
     */
    method AddUsersToCollection(usernames: seq<string>, name: string) returns (r: Result<nat, Error>)
      requires Valid()
      modifies this
      ensures Valid()
      ensures r.Ok? <==> ParseWritable(Normalise(name)).Some?
      ensures r.Err? ==> r.error == InvalidCollection(Normalise(name))
      ensures r.Ok? ==> r.value == |usernames|
      ensures var target := ParseWritable(Normalise(name));
        following == (if target == Some(Following) then old(following) + usernames else old(following)) &&
        followers == (if target == Some(Followers) then old(followers) + usernames else old(followers))
      ensures notFollowedBy == old(notFollowedBy) && notFollowingBack == old(notFollowingBack)
      ensures username == old(username) && password == old(password)
    {
      var key := Normalise(name);
      match ParseWritable(key)
      case None =>
        r := Err(InvalidCollection(key));
      case Some(c) =>
        if c == Following {
          following := following + usernames;
        } else {
          followers := followers + usernames;
        }
        r := Ok(|usernames|);
    }

    /**
     * Stores and returns the users this account follows who do not follow it
     * back: each username of `following` that is nowhere in `followers`, once, in no promised order.
     */
    method EvalNotFollowedBy() returns (r: seq<string>)
      requires Valid()
      modifies this
      ensures Valid()
      ensures NoDuplicates(r)
      ensures forall x :: x in r <==> x in following && x !in followers
      ensures |r| == |Difference(following, followers)|
      ensures notFollowedBy == r
      ensures following == old(following) && followers == old(followers)
      ensures notFollowingBack == old(notFollowingBack)
      ensures username == old(username) && password == old(password)
    {
      r := ListOfSet(Difference(following, followers));
      notFollowedBy := r;
    }

    /**
     * Stores and returns the users who follow this account and whom it does
     * not follow: each username of `followers` that is nowhere in `following`, once, in no promised order.
     */
    method EvalNotFollowingBack() returns (r: seq<string>)
      requires Valid()
      modifies this
      ensures Valid()
      ensures NoDuplicates(r)
      ensures forall x :: x in r <==> x in followers && x !in following
      ensures |r| == |Difference(followers, following)|
      ensures notFollowingBack == r
      ensures following == old(following) && followers == old(followers)
      ensures notFollowedBy == old(notFollowedBy)
      ensures username == old(username) && password == old(password)
    {
      r := ListOfSet(Difference(followers, following));
      notFollowingBack := r;
    }
  }

  /** Without normalisation of its own, `GetCollection` agrees with the size on already-normal names only. */
  lemma SizeMatchesCollection(a: Account, name: string)
    requires Normalise(name) == name
    ensures a.GetCollection(name).Ok? <==> a.GetTotalFromCollection(name).Ok?
    ensures a.GetCollection(name).Ok? ==>
      a.GetTotalFromCollection(name).value == |a.GetCollection(name).value|
  {
  }

  /**
   * The normalisation asymmetry: a collection name with leading whitespace
   * is accepted by the size, which strips it, and refused by the getter, which does not.
   */
  lemma PaddedNameSizeOnly(a: Account, c: CollectionName, pad: char)
    requires IsSpace(pad)
    ensures a.GetTotalFromCollection([pad] + c.Key()) == Ok(|a.Collection(c)|)
    ensures a.GetCollection([pad] + c.Key()) == Err(InvalidCollection([pad] + c.Key()))
  {
    PaddedKeyNormalises(c, pad);
    PaddedKeyUnknown(c, pad);
    ParseKey(c);
  }

  /** Stripping removes the padding, and the name itself needs no lowering. */
  lemma PaddedKeyNormalises(c: CollectionName, pad: char)
    requires IsSpace(pad)
    ensures Normalise([pad] + c.Key()) == c.Key()
  {
    var key := c.Key();
    var name := [pad] + key;
    KeyIsNormal(c);
    assert name[1..] == key;
    assert TrimStart(name) == TrimStart(key);
  }

  /** No collection name starts with whitespace. */
  lemma PaddedKeyUnknown(c: CollectionName, pad: char)
    requires IsSpace(pad)
    ensures ParseName([pad] + c.Key()) == None
  {
    var name := [pad] + c.Key();
    if ParseName(name).Some? {
      KeyIsLowerIdentifier(ParseName(name).value);
      assert false;
    }
  }

  /** The size sees through surrounding whitespace and upper case: normalising the name first changes nothing. */
  lemma SizeIgnoresRenormalising(a: Account, name: string)
    ensures a.GetTotalFromCollection(Normalise(name)) == a.GetTotalFromCollection(name)
  {
    NormaliseIdempotent(name);
  }

  /** Appending the empty list to any collection changes nothing and reports 0 on success. */
  method AppendNothing(a: Account, name: string) returns (r: Result<nat, Error>)
    requires a.Valid()
    modifies a
    ensures r.Ok? <==> ParseWritable(Normalise(name)).Some?
    ensures r.Ok? ==> r.value == 0
    ensures a.following == old(a.following) && a.followers == old(a.followers)
    ensures a.notFollowedBy == old(a.notFollowedBy) && a.notFollowingBack == old(a.notFollowingBack)
  {
    r := a.AddUsersToCollection([], name);
  }

  /**
   * Evaluating the gaps again with no append in between gives the same
   * usernames both times (the order of the lists may differ).
   */
  method ReevaluateGaps(a: Account) returns (nf1: seq<string>, nf2: seq<string>, nfb1: seq<string>, nfb2: seq<string>)
    requires a.Valid()
    modifies a
    ensures Elements(nf1) == Elements(nf2) && |nf1| == |nf2|
    ensures Elements(nfb1) == Elements(nfb2) && |nfb1| == |nfb2|
  {
    nf1 := a.EvalNotFollowedBy();
    nfb1 := a.EvalNotFollowingBack();
    nf2 := a.EvalNotFollowedBy();
    nfb2 := a.EvalNotFollowingBack();
  }

  /**
   * The gaps never overlap, never contain a user of the opposite side, and
   * the stored gaps are exactly what the evaluations returned.
   */
  method EvaluateBothGaps(a: Account) returns (nf: seq<string>, nfb: seq<string>)
    requires a.Valid()
    modifies a
    ensures Elements(nf) !! Elements(a.followers)
    ensures Elements(nfb) !! Elements(a.following)
    ensures Elements(nf) !! Elements(nfb)
    ensures a.notFollowedBy == nf && a.notFollowingBack == nfb
  {
    nf := a.EvalNotFollowedBy();
    nfb := a.EvalNotFollowingBack();
  }

  /** Loading the same list into both collections of a new account leaves both gaps empty. */
  method LoadSameList(username: string, password: string, users: seq<string>)
    returns (nf: seq<string>, nfb: seq<string>)
    ensures nf == [] && nfb == []
  {
    assert ParseWritable(Normalise(Following.Key())) == Some(Following) by {
      ParseKey(Following);
      KeyIsNormal(Following);
    }
    assert ParseWritable(Normalise(Followers.Key())) == Some(Followers) by {
      ParseKey(Followers);
      KeyIsNormal(Followers);
    }
    var a := new Account(username, password);
    var r1 := a.AddUsersToCollection(users, Following.Key());
    var r2 := a.AddUsersToCollection(users, Followers.Key());
    assert a.following == users && a.followers == users;
    SameUsersNoGaps(users, users);
    nf := a.EvalNotFollowedBy();
    assert |nf| == 0;
    nfb := a.EvalNotFollowingBack();
  }

  /**
   * The lookup as written: `self[collection]` subscripts the account, and an
   * object without `__getitem__` refuses every subscript with a TypeError.
   */
  function GetCollectionAsWritten(a: Account, name: string): (r: Result<seq<string>, Error>)
    ensures r.Err? && r.error == NotSubscriptable
  {
    Err(NotSubscriptable)
  }

  /**
   * A derived collection lists each user once, so its size is the number of
   * distinct users in it, whatever evaluation produced it.
   */
  lemma GapSizeCountsUsers(a: Account, c: CollectionName)
    requires a.Valid()
    requires !c.Writable()
    ensures a.GetTotalFromCollection(c.Key()) == Ok(|Elements(a.Collection(c))|)
  {
    KeyIsNormal(c);
    ParseKey(c);
    assert NoDuplicates(a.Collection(c));
    DistinctCardinality(a.Collection(c));
  }

  /** Even the declared name `following` fails as written, while the intended lookup returns the collection. */
  lemma AsWrittenRejectsDeclaredName(a: Account)
    ensures GetCollectionAsWritten(a, "following") == Err(NotSubscriptable)
    ensures a.GetCollection("following") == Ok(a.following)
  {
  }
}
