/** The records of the user directory as the store holds them (with ids) and
    as the handlers send them back (without ids). */
module Shapes {

  datatype Option<T> = None | Some(value: T)

  /** One row of the Skill table: a rating a user gave for one skill. The id is
      the row's primary key, handed out by the store. */
  datatype SkillRecord = SkillRecord(id: nat, skill: string, rating: int)

  /** One row of the User table together with its skills, in the order the
      store returns them (insertion order). */
  datatype User = User(name: string, company: string, email: string, phone: string,
                       skills: seq<SkillRecord>)

  /** One entry of the `skills` array of an update body. */
  datatype SkillInput = SkillInput(skill: string, rating: int)

  /** The body of an update request (IUserUpdateData). `None` is a field the
      client left out. */
  datatype UserUpdate = UserUpdate(name: Option<string>, company: Option<string>,
                                   email: Option<string>, phone: Option<string>,
                                   skills: Option<seq<SkillInput>>)

  /** A skill as it appears in a response body: no id, no owner. */
  datatype SkillView = SkillView(skill: string, rating: int)

  /** A user as it appears in a response body (IUser). */
  datatype UserView = UserView(name: string, company: string, email: string, phone: string,
                               skills: seq<SkillView>)

  /** What a handler answers: 404 with a plain-text body, or 200 with a JSON body. */
  datatype Reply<T> = NotFound(text: string) | Ok(body: T)

  const NotFoundText: string := "User not found"

  function SkillNames(s: seq<SkillRecord>): seq<string>
  {
    seq(|s|, j requires 0 <= j < |s| => s[j].skill)
  }

  function BatchNames(b: seq<SkillInput>): seq<string>
  {
    seq(|b|, k requires 0 <= k < |b| => b[k].skill)
  }

  predicate Distinct(xs: seq<string>)
  {
    forall i, j :: 0 <= i < j < |xs| ==> xs[i] != xs[j]
  }

  /** The `skills` array of a response: each stored record reduced to its
      (skill, rating) pair, in stored order. */
  function ProjectSkills(s: seq<SkillRecord>): (r: seq<SkillView>)
    ensures |r| == |s|
    ensures forall j :: 0 <= j < |s| ==> r[j].skill == s[j].skill && r[j].rating == s[j].rating
  {
    if s == [] then []
    else [SkillView(s[0].skill, s[0].rating)] + ProjectSkills(s[1..])
  }

  /** The response body for one user: the four text fields as stored and the
      projected skills. */
  function ProjectUser(u: User): (v: UserView)
    ensures v.name == u.name && v.company == u.company && v.email == u.email && v.phone == u.phone
    ensures |v.skills| == |u.skills|
    ensures forall j :: 0 <= j < |u.skills| ==>
              v.skills[j].skill == u.skills[j].skill && v.skills[j].rating == u.skills[j].rating
  {
    UserView(u.name, u.company, u.email, u.phone, ProjectSkills(u.skills))
  }

  /** Two stored skill lists give the same response exactly when they agree on
      names and ratings position by position: ids never reach the client. */
  lemma {:induction false} ProjectSkillsEqual(s1: seq<SkillRecord>, s2: seq<SkillRecord>)
    ensures ProjectSkills(s1) == ProjectSkills(s2) <==>
              |s1| == |s2| &&
              forall j :: 0 <= j < |s1| ==> s1[j].skill == s2[j].skill && s1[j].rating == s2[j].rating
  {
    var p1, p2 := ProjectSkills(s1), ProjectSkills(s2);
    if p1 == p2 {
      forall j | 0 <= j < |s1| ensures s1[j].skill == s2[j].skill && s1[j].rating == s2[j].rating {
        assert p1[j] == p2[j];
      }
    }
    if |s1| == |s2| &&
       forall j :: 0 <= j < |s1| ==> s1[j].skill == s2[j].skill && s1[j].rating == s2[j].rating
    {
      forall j | 0 <= j < |p1| ensures p1[j] == p2[j] {
        assert p1[j] == SkillView(s1[j].skill, s1[j].rating);
      }
    }
  }
}
