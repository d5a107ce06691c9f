/** The user collection as the controller sees it: a finite map from document
    id to user record, with the lookups the handlers issue against it. */
module UserStore {
  import opened Http

  /** A document id. Ids are allocated in increasing order, so a smaller id
      is an older document. */
  type Id = nat

  datatype Role = Patient | Doctor | Admin

  /** The string stored in the `role` field. */
  function RoleName(role: Role): string {
    match role
    case Patient => "Patient"
    case Doctor => "Doctor"
    case Admin => "Admin"
  }

  /** The image-host reference kept for a doctor's picture. */
  datatype Avatar = Avatar(publicId: string, url: string)

  datatype User = User(
    firstName: string,
    lastName: string,
    email: string,
    phone: string,
    password: string,
    gender: string,
    dob: string,
    adharNo: string,
    role: Role,
    doctorDepartment: Option<string>,
    docAvatar: Option<Avatar>)

  type Users = map<Id, User>

  /** No two records share an email, whatever their roles. */
  ghost predicate EmailsDistinct(store: Users) {
    forall i, j :: i in store && j in store && store[i].email == store[j].email ==> i == j
  }

  /** Some record, of any role, is registered with `email`. */
  ghost predicate EmailTaken(store: Users, email: string) {
    exists id :: id in store && store[id].email == email
  }

  /** `after` is `before` with exactly one new record, under `id`. */
  ghost predicate AddedOne(before: Users, after: Users, id: Id) {
    && id !in before
    && after.Keys == before.Keys + {id}
    && forall k :: k in before ==> k in after && after[k] == before[k]
  }

  /** `after` is `before` without the record `id`, and nothing else differs. */
  ghost predicate RemovedOne(before: Users, after: Users, id: Id) {
    && id in before
    && after.Keys == before.Keys - {id}
    && forall k :: k in after ==> k in before && after[k] == before[k]
  }

  function Min(a: Id, b: Id): Id {
    if a <= b then a else b
  }

  function Max(a: Id, b: Id): Id {
    if a <= b then b else a
  }

  lemma {:induction false} LeastExists(ids: set<Id>)
    requires ids != {}
    ensures exists m :: m in ids && forall j :: j in ids ==> m <= j
  {
    var x :| x in ids;
    var rest := ids - {x};
    if rest == {} {
      assert ids == {x};
      assert forall j :: j in ids ==> x <= j;
    } else {
      LeastExists(rest);
      var m :| m in rest && forall j :: j in rest ==> m <= j;
      forall j | j in ids
        ensures Min(x, m) <= j
      {
        if j != x {
          assert j in rest;
        }
      }
      assert Min(x, m) in ids;
    }
  }

  lemma {:induction false} GreatestExists(ids: set<Id>)
    requires ids != {}
    ensures exists m :: m in ids && forall j :: j in ids ==> j <= m
  {
    var x :| x in ids;
    var rest := ids - {x};
    if rest == {} {
      assert ids == {x};
      assert forall j :: j in ids ==> j <= x;
    } else {
      GreatestExists(rest);
      var m :| m in rest && forall j :: j in rest ==> j <= m;
      forall j | j in ids
        ensures j <= Max(x, m)
      {
        if j != x {
          assert j in rest;
        }
      }
      assert Max(x, m) in ids;
    }
  }

  /** The oldest of a non-empty set of ids. */
  function Least(ids: set<Id>): (m: Id)
    requires ids != {}
    ensures m in ids
    ensures forall j :: j in ids ==> m <= j
  {
    LeastExists(ids);
    var m :| m in ids && forall j :: j in ids ==> m <= j;
    m
  }

  /** The newest of a non-empty set of ids. */
  function Greatest(ids: set<Id>): (m: Id)
    requires ids != {}
    ensures m in ids
    ensures forall j :: j in ids ==> j <= m
  {
    GreatestExists(ids);
    var m :| m in ids && forall j :: j in ids ==> j <= m;
    m
  }

  /** `User.findOne({ email })`: the oldest record with that email, if any.
      With distinct emails this is the one record that has it. */
  function FindByEmail(store: Users, email: string): (r: Option<Id>)
    ensures r.None? <==> !EmailTaken(store, email)
    ensures r.Some? ==> r.value in store && store[r.value].email == email
    ensures r.Some? ==> forall j :: j in store && store[j].email == email ==> r.value <= j
    ensures EmailsDistinct(store) ==>
              forall id :: id in store && store[id].email == email ==> r == Some(id)
  {
    var ids := set id | id in store && store[id].email == email;
    if ids == {} then
      assert forall id :: id in store && store[id].email == email ==> id in ids;
      None
    else
      var m := Least(ids);
      assert forall j :: j in store && store[j].email == email ==> j in ids;
      Some(m)
  }

  /** The id the database gives a newly created document: one past the
      newest id in use. */
  function FreshId(store: Users): (id: Id)
    ensures id !in store
    ensures forall j :: j in store ==> j < id
  {
    if store.Keys == {} then 0 else Greatest(store.Keys) + 1
  }

  /** `User.find({ role: "Doctor" })`: every doctor record, keyed by id. */
  function DoctorsOf(store: Users): (doctors: Users)
    ensures forall id :: id in doctors <==> id in store && store[id].role == Doctor
    ensures forall id :: id in doctors ==> doctors[id] == store[id]
  {
    map id | id in store && store[id].role == Doctor :: store[id]
  }
}
