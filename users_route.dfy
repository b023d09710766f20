/** `app/api/users/route.ts`: creating a user (POST) and listing users (GET).
    Neither handler reads the session. */
module UsersRoute {
  import opened Common
  import opened EntityStore
  import UserActions

  /** The JSON body of a POST; `role` is absent, empty or one of the three role names. */
  datatype UserBody = UserBody(name: string, email: string, password: string, role: Option<Role>)

  /** The `select` of the POST response: no password. */
  datatype PublicUser = PublicUser(id: Id, name: string, email: string, role: Role)

  /** What a POST does before inserting, as written: the duplicate-email check,
      then the user to insert. There is no session, so no caller is refused and a
      supplied role is stored as it is. */
  function PostPlan(t: Tables, body: UserBody, hash: string -> string): (r: Response<UserData>)
    ensures r.Error? <==> FindUserByEmail(t.users, body.email).Some?
    ensures r.Error? ==> r == Error(400, "User already exists")
    ensures r.Ok? ==> r.body == UserData(body.name, body.email, hash(body.password), UserActions.RoleOrStudent(body.role))
  {
    if FindUserByEmail(t.users, body.email).Some? then Error(400, "User already exists")
    else Ok(UserData(body.name, body.email, hash(body.password), UserActions.RoleOrStudent(body.role)))
  }

  /** The user POST handler: on success exactly one user is appended and only
      its id, name, email and role are returned. */
  method Post(db: Store, body: UserBody, hash: string -> string) returns (r: Response<PublicUser>)
    requires db.Valid()
    modifies db
    ensures db.Valid()
    ensures PostPlan(old(db.Snapshot()), body, hash).Error? ==>
              r == Error(400, "User already exists") && db.Snapshot() == old(db.Snapshot())
    ensures PostPlan(old(db.Snapshot()), body, hash).Ok? ==>
              var d := PostPlan(old(db.Snapshot()), body, hash).body;
              && r == Ok(PublicUser(old(db.nextId), d.name, d.email, d.role))
              && db.Snapshot() == old(db.Snapshot()).(users := old(db.users) + [User(old(db.nextId), d.name, d.email, d.password, d.role, old(db.clock))])
  {
    var existing := FindUserByEmail(db.users, body.email);
    if existing.Some? {
      return Error(400, "User already exists");
    }
    var hashed := hash(body.password);
    var role := if body.role.Some? then body.role.value else Student;
    var user := db.InsertUser(UserData(body.name, body.email, hashed, role));
    r := Ok(PublicUser(user.id, user.name, user.email, user.role));
  }

  /** Whoever calls, and whatever the store holds, a fresh email with role ADMIN
      yields a new administrator. */
  lemma AnyoneCanCreateAdmin(t: Tables, body: UserBody, hash: string -> string)
    requires body.role == Some(Admin)
    requires forall u :: u in t.users ==> u.email != body.email
    ensures PostPlan(t, body, hash).Ok? && PostPlan(t, body, hash).body.role == Admin
  {
  }

  /** The POST with the session consulted: a role other than STUDENT is honoured
      only when an administrator makes the request. */
  function PostPlanCorrected(t: Tables, session: Session, body: UserBody, hash: string -> string): (r: Response<UserData>)
    ensures r.Error? <==> FindUserByEmail(t.users, body.email).Some?
    ensures r.Ok? && !(session.Some? && session.value.role == Admin) ==> r.body.role == Student
    ensures r.Ok? && session.Some? && session.value.role == Admin ==> r == PostPlan(t, body, hash)
    ensures r.Ok? ==> r.body.name == body.name && r.body.email == body.email && r.body.password == hash(body.password)
  {
    var plan := PostPlan(t, body, hash);
    if plan.Ok? && !(session.Some? && session.value.role == Admin) then Ok(plan.body.(role := Student))
    else plan
  }

  /** A row of the GET response: every user field but the password. */
  datatype UserListing = UserListing(id: Id, name: string, email: string, role: Role, createdAt: int)

  /** The user GET handler: one row per user, without the password. The rows
      follow the store; `findMany` has no `orderBy`, so the database fixes no order. */
  function Get(t: Tables): (r: seq<UserListing>)
    ensures |r| == |t.users|
    ensures forall i :: 0 <= i < |r| ==>
              var u := t.users[i];
              r[i] == UserListing(u.id, u.name, u.email, u.role, u.createdAt)
  {
    seq(|t.users|, i requires 0 <= i < |t.users| =>
      UserListing(t.users[i].id, t.users[i].name, t.users[i].email, t.users[i].role, t.users[i].createdAt))
  }

  /** Every row of this listing agrees, field for field, with a row of the
      `getAllUsers` action: the two listings expose the same user data. */
  lemma {:induction false} GetAgreesWithGetAllUsers(t: Tables, l: UserListing)
    requires l in Get(t)
    ensures exists s :: s in UserActions.GetAllUsers(t) && s.id == l.id && s.name == l.name && s.email == l.email
                        && s.role == l.role && s.createdAt == l.createdAt
  {
    var r := Get(t);
    var i :| 0 <= i < |r| && r[i] == l;
    var u := t.users[i];
    var s := UserActions.Summary(t, u);
    assert s in UserActions.GetAllUsers(t);
  }
}
