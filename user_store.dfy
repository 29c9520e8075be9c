/** The user directory behind the handlers: users by id, each with its skill
    list, and the Skill table's supply of fresh ids. The three user handlers
    are methods of Store; Put is the function that specifies the update
    handler, and the lemmas below state what it promises. */
module UserStore {
  import opened Shapes
  import opened SkillMerge
  import opened MergeTheory
  import opened MergeProperties

  /** The store's contents at one moment. */
  datatype StoreState = StoreState(users: map<int, User>, nextSkillId: nat)

  /** Every stored skill id is below the next one handed out, so each created
      record gets an id no record has. */
  predicate IdsBelowNext(st: StoreState)
  {
    forall uid, j :: uid in st.users && 0 <= j < |st.users[uid].skills| ==>
      st.users[uid].skills[j].id < st.nextSkillId
  }

  /** The lookup `findUnique({ where: { id: Number(id) } })` finds a user. The
      route id is None when Number(id) is not a number; such an id never
      matches. */
  predicate Found(st: StoreState, id: Option<int>)
  {
    id.Some? && id.value in st.users
  }

  function Choose(supplied: Option<string>, current: string): string
  {
    match supplied
    case Some(v) => v
    case None => current
  }

  /** The field step of the update handler: a supplied field overwrites the
      stored one, an omitted field is kept, and the skills are not touched. */
  function ApplyFields(u: User, upd: UserUpdate): (r: User)
    ensures r.skills == u.skills
    ensures upd.name.Some? ==> r.name == upd.name.value
    ensures upd.name.None? ==> r.name == u.name
    ensures upd.company.Some? ==> r.company == upd.company.value
    ensures upd.company.None? ==> r.company == u.company
    ensures upd.email.Some? ==> r.email == upd.email.value
    ensures upd.email.None? ==> r.email == u.email
    ensures upd.phone.Some? ==> r.phone == upd.phone.value
    ensures upd.phone.None? ==> r.phone == u.phone
  {
    u.(name := Choose(upd.name, u.name), company := Choose(upd.company, u.company),
       email := Choose(upd.email, u.email), phone := Choose(upd.phone, u.phone))
  }

  /** The field step and then, when the body has a `skills` array, the merge
      of that batch. Returns the user and the next free skill id. Only the
      skill list can differ from the field step's result; without a batch it
      is the stored list, and with one it only grows and the id supply moves
      forward by the number of records created. */
  function ApplyUpdate(u: User, upd: UserUpdate, next: nat): (r: (User, nat))
    ensures r.0 == ApplyFields(u, upd).(skills := r.0.skills)
    ensures upd.skills.None? ==> r.0.skills == u.skills && r.1 == next
    ensures |u.skills| <= |r.0.skills| && r.1 - next == |r.0.skills| - |u.skills|
  {
    var f := ApplyFields(u, upd);
    match upd.skills
    case None => (f, next)
    case Some(b) =>
      MergeGrows(f.skills, b, next);
      var (skills, next') := Merge(f.skills, b, next);
      (f.(skills := skills), next')
  }

  /** The update handler as a function of the store: NotFound and no write for
      an id that finds no user; otherwise the updated user is stored and the
      response is its projection. The reply is NotFound exactly when the id
      finds no user, and an Ok reply shows the user as stored afterwards. */
  function Put(st: StoreState, id: Option<int>, upd: UserUpdate): (r: (StoreState, Reply<UserView>))
    ensures r.1.NotFound? <==> !Found(st, id)
    ensures r.1.Ok? ==> id.value in r.0.users && r.1.body == ProjectUser(r.0.users[id.value])
    ensures r.0.users.Keys == st.users.Keys
  {
    if !Found(st, id) then (st, NotFound(NotFoundText))
    else
      var (u, next') := ApplyUpdate(st.users[id.value], upd, st.nextSkillId);
      (StoreState(st.users[id.value := u], next'), Ok(ProjectUser(u)))
  }

  /** An update for a missing user answers "User not found" and writes nothing. */
  lemma {:induction false} PutMissing(st: StoreState, id: Option<int>, upd: UserUpdate)
    requires !Found(st, id)
    ensures Put(st, id, upd) == (st, NotFound(NotFoundText))
  {
  }

  /** An update touches only the user it names: the same ids are stored, every
      other user is unchanged, the reply shows the user as stored afterwards,
      and the supply of ids only moves forward. */
  lemma {:induction false} PutFrame(st: StoreState, id: Option<int>, upd: UserUpdate)
    requires Found(st, id)
    ensures var (st', r) := Put(st, id, upd);
            st'.users.Keys == st.users.Keys &&
            (forall uid :: uid in st.users && uid != id.value ==> st'.users[uid] == st.users[uid]) &&
            r == Ok(ProjectUser(st'.users[id.value])) &&
            st.nextSkillId <= st'.nextSkillId
  {
    var f := ApplyFields(st.users[id.value], upd);
    if upd.skills.Some? {
      MergeKeepsStored(f.skills, upd.skills.value, st.nextSkillId);
    }
  }

  /** Without a `skills` array only the four fields change: the skill list and
      the id supply stay as they were. */
  lemma {:induction false} PutWithoutSkills(st: StoreState, id: Option<int>, upd: UserUpdate)
    requires Found(st, id) && upd.skills.None?
    ensures var st' := Put(st, id, upd).0;
            st'.nextSkillId == st.nextSkillId &&
            st'.users[id.value].skills == st.users[id.value].skills
  {
  }

  /** Sending the same update twice leaves the store as the first one did,
      and the second reply equals the first. */
  lemma {:induction false} PutIdempotent(st: StoreState, id: Option<int>, upd: UserUpdate)
    ensures var once := Put(st, id, upd);
            Put(once.0, id, upd) == once
  {
    if Found(st, id) {
      var u := st.users[id.value];
      var f := ApplyFields(u, upd);
      var (u1, n1) := ApplyUpdate(u, upd, st.nextSkillId);
      assert ApplyFields(u1, upd) == f.(skills := u1.skills);
      if upd.skills.Some? {
        MergeIdempotent(f.skills, upd.skills.value, st.nextSkillId, n1);
      }
      assert ApplyUpdate(u1, upd, n1) == (u1, n1);
      var st1 := Put(st, id, upd).0;
      assert st1.users[id.value := u1] == st1.users;
    }
  }

  /** The update keeps the store's id invariant. */
  lemma {:induction false} PutKeepsIdsBelowNext(st: StoreState, id: Option<int>, upd: UserUpdate)
    requires IdsBelowNext(st)
    ensures IdsBelowNext(Put(st, id, upd).0)
  {
    if Found(st, id) {
      var f := ApplyFields(st.users[id.value], upd);
      if upd.skills.Some? {
        assert forall j :: 0 <= j < |f.skills| ==> f.skills[j].id < st.nextSkillId by {
          forall j | 0 <= j < |f.skills| ensures f.skills[j].id < st.nextSkillId {
            var key := id.value;
            assert key in st.users;
            assert 0 <= j < |st.users[key].skills|;
            assert st.users[key].skills[j].id < st.nextSkillId;
            assert f.skills[j] == st.users[key].skills[j];
          }
        }
        MergeIdsFresh(f.skills, upd.skills.value, st.nextSkillId);
        MergeKeepsStored(f.skills, upd.skills.value, st.nextSkillId);
      }
    }
  }

  /** The records an update creates get fresh ids: each is at or above the
      supply, so it differs from every skill id stored before. */
  lemma {:induction false} PutIdsFresh(st: StoreState, id: Option<int>, upd: UserUpdate)
    requires IdsBelowNext(st) && Found(st, id)
    ensures var u := Put(st, id, upd).0.users[id.value];
            forall j :: |st.users[id.value].skills| <= j < |u.skills| ==> st.nextSkillId <= u.skills[j].id
    ensures var u := Put(st, id, upd).0.users[id.value];
            forall j, uid, k :: |st.users[id.value].skills| <= j < |u.skills| &&
                                uid in st.users && 0 <= k < |st.users[uid].skills| ==>
                                u.skills[j].id != st.users[uid].skills[k].id
  {
    var key := id.value;
    var f := ApplyFields(st.users[key], upd);
    var u := Put(st, id, upd).0.users[key];
    if upd.skills.Some? {
      forall j | 0 <= j < |f.skills| ensures f.skills[j].id < st.nextSkillId {
        assert f.skills[j] == st.users[key].skills[j];
      }
      MergeIdsFresh(f.skills, upd.skills.value, st.nextSkillId);
      assert u.skills == Merge(f.skills, upd.skills.value, st.nextSkillId).0;
    } else {
      assert u.skills == st.users[key].skills;
    }
    assert forall j :: |st.users[key].skills| <= j < |u.skills| ==> st.nextSkillId <= u.skills[j].id;
    forall j, uid, k | |st.users[key].skills| <= j < |u.skills| &&
                       uid in st.users && 0 <= k < |st.users[uid].skills|
      ensures u.skills[j].id != st.users[uid].skills[k].id
    {
      assert st.users[uid].skills[k].id < st.nextSkillId;
    }
  }

  /** A user whose skill names are pairwise distinct keeps them distinct. */
  lemma {:induction false} PutKeepsNamesDistinct(st: StoreState, id: Option<int>, upd: UserUpdate)
    requires Found(st, id) && Distinct(SkillNames(st.users[id.value].skills))
    ensures Distinct(SkillNames(Put(st, id, upd).0.users[id.value].skills))
  {
    var f := ApplyFields(st.users[id.value], upd);
    if upd.skills.Some? {
      MergeKeepsNamesDistinct(f.skills, upd.skills.value, st.nextSkillId);
    }
  }

  /** A listing that walks every key once holds the projection of every
      user and nothing else. */
  lemma {:induction false} ListingCovers(users: map<int, User>, order: seq<int>, r: seq<UserView>)
    requires forall uid :: uid in users <==> uid in order
    requires |r| == |order|
    requires forall i :: 0 <= i < |order| ==> order[i] in users && r[i] == ProjectUser(users[order[i]])
    ensures forall uid :: uid in users ==> ProjectUser(users[uid]) in r
    ensures forall v :: v in r ==> exists uid :: uid in users && v == ProjectUser(users[uid])
  {
    forall uid | uid in users ensures ProjectUser(users[uid]) in r {
      var i :| 0 <= i < |order| && order[i] == uid;
      assert r[i] == ProjectUser(users[uid]);
    }
    forall v | v in r ensures exists uid :: uid in users && v == ProjectUser(users[uid]) {
      var i :| 0 <= i < |r| && r[i] == v;
      var uid := order[i];
      assert uid in users && v == ProjectUser(users[uid]);
    }
  }

  class Store {
    var users: map<int, User>
    var nextSkillId: nat

    function State(): StoreState
      reads this
    {
      StoreState(users, nextSkillId)
    }

    /** Every stored skill id is below the supply, so a record UpdateUser
        creates, whose id is at or above the old supply, is fresh. */
    predicate Valid()
      reads this
    {
      IdsBelowNext(State())
    }

    /** A store holding the seeded users. */
    constructor (initial: StoreState)
      requires IdsBelowNext(initial)
      ensures Valid() && State() == initial
    {
      users := initial.users;
      nextSkillId := initial.nextSkillId;
    }

    /** GET /users: every stored user, projected, in an order the storage
        chooses; `order` names the user behind each entry. */
    method ListUsers() returns (r: seq<UserView>, ghost order: seq<int>)
      ensures forall uid :: uid in users <==> uid in order
      ensures forall i, j :: 0 <= i < j < |order| ==> order[i] != order[j]
      ensures |r| == |order|
      ensures forall i :: 0 <= i < |order| ==> order[i] in users && r[i] == ProjectUser(users[order[i]])
      ensures forall uid :: uid in users ==> ProjectUser(users[uid]) in r
      ensures forall v :: v in r ==> exists uid :: uid in users && v == ProjectUser(users[uid])
    {
      var pending := users.Keys;
      r, order := [], [];
      while pending != {}
        invariant pending <= users.Keys
        invariant forall uid :: uid in users <==> uid in order || uid in pending
        invariant forall uid :: uid in order ==> uid !in pending
        invariant forall i, j :: 0 <= i < j < |order| ==> order[i] != order[j]
        invariant |r| == |order|
        invariant forall i :: 0 <= i < |order| ==> order[i] in users && r[i] == ProjectUser(users[order[i]])
        decreases pending
      {
        assert exists u :: u in pending by {
          if forall u :: u !in pending { assert false; }
        }
        var uid :| uid in pending;
        r := r + [ProjectUser(users[uid])];
        order := order + [uid];
        pending := pending - {uid};
      }
      ListingCovers(users, order, r);
    }

    /** GET /users/:id: "User not found" when the id finds no user, else the
        user's projection. */
    method GetUser(id: Option<int>) returns (r: Reply<UserView>)
      ensures !Found(State(), id) ==> r == NotFound(NotFoundText)
      ensures Found(State(), id) ==> r == Ok(ProjectUser(users[id.value]))
    {
      if id.None? || id.value !in users {
        return NotFound(NotFoundText);
      }
      var user := users[id.value];
      r := Ok(ProjectUser(user));
    }

    /** PUT /users/:id: the lookup guard, the field update, then the batch
        loop. */
    method UpdateUser(id: Option<int>, upd: UserUpdate) returns (r: Reply<UserView>)
      requires Valid()
      modifies this
      ensures Valid()
      ensures State() == Put(old(State()), id, upd).0
      ensures r == Put(old(State()), id, upd).1
      ensures !Found(old(State()), id) ==> r == NotFound(NotFoundText) && State() == old(State())
      ensures Found(old(State()), id) ==>
                forall j :: |old(users)[id.value].skills| <= j < |users[id.value].skills| ==>
                  old(nextSkillId) <= users[id.value].skills[j].id
    {
      if id.None? || id.value !in users {
        return NotFound(NotFoundText);
      }
      var key := id.value;
      users := users[key := ApplyFields(users[key], upd)];
      if upd.skills.Some? {
        MergeSkills(key, upd.skills.value);
      }
      PutKeepsIdsBelowNext(old(State()), id, upd);
      PutIdsFresh(old(State()), id, upd);
      r := Ok(ProjectUser(users[key]));
    }

    /** The batch loop of PUT /users/:id: one upsert per entry on the user
        stored under `key`, each working on the user as re-read after the
        previous write. Only that user's skill list and the id supply change. */
    method MergeSkills(key: int, batch: seq<SkillInput>)
      requires key in users
      modifies this
      ensures key in users
      ensures users == old(users)[key := old(users[key]).(skills := users[key].skills)]
      ensures users[key].skills == Merge(old(users[key].skills), batch, old(nextSkillId)).0
      ensures nextSkillId == Merge(old(users[key].skills), batch, old(nextSkillId)).1
    {
      var skills := users[key].skills;
      ghost var start, next0 := users[key], nextSkillId;
      for k := 0 to |batch|
        invariant users == old(users)[key := start.(skills := skills)]
        invariant skills == Merge(start.skills, batch[..k], next0).0
        invariant nextSkillId == Merge(start.skills, batch[..k], next0).1
      {
        MergeStep(start.skills, batch, next0, k);
        var entry := batch[k];
        var found := FindByName(users[key].skills, entry.skill);
        if found.Some? {
          var i := found.value;
          skills := skills[i := skills[i].(rating := entry.rating)];
        } else {
          skills := skills + [SkillRecord(nextSkillId, entry.skill, entry.rating)];
          nextSkillId := nextSkillId + 1;
        }
        users := users[key := users[key].(skills := skills)];
      }
      assert batch[..|batch|] == batch;
    }
  }
}
