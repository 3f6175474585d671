/** The users table behind `login`, `register` and `getUser`. Email matching
    is exact string equality; passwords are opaque strings compared as given. */
module Auth {
  import opened Store
  import opened Schema

  /** The arguments of `register`. */
  datatype RegisterArgs = RegisterArgs(
    name: string,
    email: string,
    password: string,
    role: Role,
    phone: Option<string>)

  /** The `by_email` index lookup with `.first()`: the oldest user holding
      exactly this email, if any. */
  function FirstWithEmail(all: seq<Doc<User>>, email: string): (r: Option<Doc<User>>)
    ensures r.None? <==> forall d :: d in all ==> d.value.email != email
    ensures r.Some? ==> exists i :: 0 <= i < |all| && all[i] == r.value && r.value.value.email == email
                                 && forall j :: 0 <= j < i ==> all[j].value.email != email
  {
    if all == [] then None
    else if all[0].value.email == email then Some(all[0])
    else
      var r := FirstWithEmail(all[1..], email);
      assert forall j :: 1 <= j < |all| ==> all[j] == all[1..][j - 1];
      assert forall d :: d in all[1..] ==> d in all;
      r
  }

  /** `login` over the collected users: the user found by email, when its
      stored password equals the argument; otherwise null. */
  function LoginIn(all: seq<Doc<User>>, email: string, password: string): Option<Doc<User>> {
    match FirstWithEmail(all, email)
    case None => None
    case Some(d) => if d.value.password != password then None else Some(d)
  }

  /** No two users share an email. */
  ghost predicate UniqueEmails(users: map<nat, User>) {
    forall a, b :: a in users && b in users && users[a].email == users[b].email ==> a == b
  }

  class UserRegistry {
    var users: map<nat, User>
    var nextId: nat

    ghost predicate Valid()
      reads this
    {
      (forall id :: id in users ==> id < nextId) && UniqueEmails(users)
    }

    constructor ()
      ensures Valid() && users == map[]
    {
      users := map[];
      nextId := 0;
    }

    /** The users table in creation order, oldest first. The source reads
        users only through its `by_email` and `by_role` indexes; their
        lookups are modelled as scans of this sequence. */
    function All(): (r: seq<Doc<User>>)
      reads this
      requires Valid()
      ensures forall d :: d in r <==> d.id in users && users[d.id] == d.value
    {
      Ascending(users, nextId)
    }

    /** `login`: the user with this email when the password matches; null for
        an unknown email or a wrong password. Reads only. */
    function Login(email: string, password: string): (r: Option<Doc<User>>)
      reads this
      requires Valid()
      ensures r.Some? ==> r.value.id in users && users[r.value.id] == r.value.value
                          && r.value.value.email == email && r.value.value.password == password
      ensures r.None? <==> forall id :: id in users && users[id].email == email ==> users[id].password != password
    {
      var r := LoginIn(All(), email, password);
      var f := FirstWithEmail(All(), email);
      if f.Some? then
        assert forall id :: id in users && users[id].email == email ==> id == f.value.id;
        r
      else
        assert forall id :: id in users ==> Doc(id, users[id]) in All();
        r
    }

    /** `getUser`: the user, or null when there is none. Reads only. */
    function GetUser(id: nat): (r: Option<User>)
      reads this
      ensures r.Some? <==> id in users
      ensures r.Some? ==> r.value == users[id]
    {
      if id in users then Some(users[id]) else None
    }

    /** `register`: fails with "Email already registered", changing nothing,
        when some user has exactly this email; otherwise adds exactly one user
        with the given fields, so emails stay unique. */
    method Register(args: RegisterArgs, now: nat) returns (r: Result<nat>)
      requires Valid()
      modifies this
      ensures Valid()
      ensures r.Err? <==> exists id :: id in old(users) && old(users)[id].email == args.email
      ensures r.Err? ==> r.message == "Email already registered" && users == old(users) && nextId == old(nextId)
      ensures r.Ok? ==> r.value !in old(users)
                        && users == old(users)[r.value := User(args.name, args.email, args.password, args.role, args.phone, now)]
    {
      var existing := FirstWithEmail(All(), args.email);
      if existing.Some? {
        assert existing.value.id in users;
        return Err("Email already registered");
      }
      assert forall id :: id in users ==> Doc(id, users[id]) in All();
      var id := nextId;
      users := users[id := User(args.name, args.email, args.password, args.role, args.phone, now)];
      nextId := nextId + 1;
      r := Ok(id);
    }
  }
}
