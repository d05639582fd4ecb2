// The admin pages of components/UserPages.tsx: the architect and designer
// lists with their field edits, the share links, and the all-projects table
// with its stage sort, its notes and its technical-brief editor.
module UserPages {
  import opened Wrappers
  import opened Text
  import opened Types
  import opened Lookup

  /** Shown for a missing architect or designer in the projects table. */
  const NoName: string := "—"

  // ---- Architect and designer lists ----

  /** ArchitectList shows exactly the architects, in list order. */
  function ArchitectsOf(users: seq<User>): (r: seq<User>)
    ensures forall u :: u in r <==> u in users && u.role == Architect
    ensures forall u: User :: u.role == Architect ==> multiset(r)[u] == multiset(users)[u]
  {
    UsersWithRole(users, Architect)
  }

  /** DesignerList shows exactly the designers, in list order. */
  function DesignersOf(users: seq<User>): (r: seq<User>)
    ensures forall u :: u in r <==> u in users && u.role == Designer
    ensures forall u: User :: u.role == Designer ==> multiset(r)[u] == multiset(users)[u]
  {
    UsersWithRole(users, Designer)
  }

  /** The two lists never share a user. */
  lemma ListsDisjoint(users: seq<User>)
    ensures forall u :: !(u in ArchitectsOf(users) && u in DesignersOf(users))
  {
  }

  /** The user fields the lists edit. */
  datatype UserField = FullNameField | DobField | RoleField | BioField | PaymentDetailsField | CostPerM2Field | PhotoUrlField

  /** `handleFieldChange(id, field, value)` and the photo upload: a key
      with its new value. */
  datatype UserEdit =
    | SetFullName(fullName: string)
    | SetDob(dob: string)
    | SetRole(role: UserRole)
    | SetBio(bio: string)
    | SetPaymentDetails(paymentDetails: string)
    | SetCostPerM2(costPerM2: string)
    | SetPhotoUrl(photoUrl: string)

  function UserFieldOf(e: UserEdit): UserField
  {
    match e
    case SetFullName(_) => FullNameField
    case SetDob(_) => DobField
    case SetRole(_) => RoleField
    case SetBio(_) => BioField
    case SetPaymentDetails(_) => PaymentDetailsField
    case SetCostPerM2(_) => CostPerM2Field
    case SetPhotoUrl(_) => PhotoUrlField
  }

  /** `u` holds the value the edit carries. */
  predicate UserHolds(u: User, e: UserEdit)
  {
    match e
    case SetFullName(v) => u.fullName == Some(v)
    case SetDob(v) => u.dob == Some(v)
    case SetRole(v) => u.role == v
    case SetBio(v) => u.bio == Some(v)
    case SetPaymentDetails(v) => u.paymentDetails == Some(v)
    case SetCostPerM2(v) => u.costPerM2 == Some(v)
    case SetPhotoUrl(v) => u.photoUrl == Some(v)
  }

  /** `u` and `v` agree on every key except possibly `f`. */
  predicate UserAgreeExcept(u: User, v: User, f: UserField)
  {
    && u.id == v.id && u.username == v.username && u.password == v.password
    && (f == RoleField || u.role == v.role)
    && (f == FullNameField || u.fullName == v.fullName)
    && (f == PhotoUrlField || u.photoUrl == v.photoUrl)
    && (f == BioField || u.bio == v.bio)
    && (f == DobField || u.dob == v.dob)
    && (f == PaymentDetailsField || u.paymentDetails == v.paymentDetails)
    && (f == CostPerM2Field || u.costPerM2 == v.costPerM2)
  }

  /** `{ ...user, [field]: value }`; it is also the designer card's role
      selector, applied to the card's own user. */
  function ApplyUserEdit(u: User, e: UserEdit): (r: User)
    ensures UserHolds(r, e) && UserAgreeExcept(u, r, UserFieldOf(e))
  {
    match e
    case SetFullName(v) => u.(fullName := Some(v))
    case SetDob(v) => u.(dob := Some(v))
    case SetRole(v) => u.(role := v)
    case SetBio(v) => u.(bio := Some(v))
    case SetPaymentDetails(v) => u.(paymentDetails := Some(v))
    case SetCostPerM2(v) => u.(costPerM2 := Some(v))
    case SetPhotoUrl(v) => u.(photoUrl := Some(v))
  }

  /** handleFieldChange and handlePhotoUpload: the updated user to pass
      on, or None (no update call) when no user has that id. */
  function HandleFieldChange(users: seq<User>, userId: string, e: UserEdit): (r: Option<User>)
    ensures r.None? <==> forall u :: u in users ==> u.id != userId
    ensures r.Some? ==> FindUser(users, userId).Some?
                        && UserHolds(r.value, e)
                        && UserAgreeExcept(FindUser(users, userId).value, r.value, UserFieldOf(e))
                        && r.value.id == userId
  {
    var u := FindUser(users, userId);
    if u.Some? then Some(ApplyUserEdit(u.value, e)) else None
  }

  /** A later edit of the same key supersedes an earlier one. */
  lemma {:induction false} UserEditLastWins(u: User, e1: UserEdit, e2: UserEdit)
    requires UserFieldOf(e1) == UserFieldOf(e2)
    ensures ApplyUserEdit(ApplyUserEdit(u, e1), e2) == ApplyUserEdit(u, e2)
  {
    match e1
    case SetFullName(_) =>
    case SetDob(_) =>
    case SetRole(_) =>
    case SetBio(_) =>
    case SetPaymentDetails(_) =>
    case SetCostPerM2(_) =>
    case SetPhotoUrl(_) =>
  }

  // ---- Share links ----

  const ProjectQuery: string := "?project="
  const LoginQuery: string := "?login_token="

  /** The client's link to a project. */
  function ClientLink(origin: string, projectId: string): (link: string)
    ensures StripPrefix(link, origin + ProjectQuery) == Some(projectId)
  {
    assert (origin + ProjectQuery + projectId)[..|origin + ProjectQuery|] == origin + ProjectQuery;
    origin + ProjectQuery + projectId
  }

  /** A designer's sign-in link. */
  function LoginLink(origin: string, userId: string): (link: string)
    ensures StripPrefix(link, origin + LoginQuery) == Some(userId)
  {
    assert (origin + LoginQuery + userId)[..|origin + LoginQuery|] == origin + LoginQuery;
    origin + LoginQuery + userId
  }

  /** Distinct ids give distinct links, and a client link is never a
      sign-in link. */
  lemma LinksDistinguish(origin: string, a: string, b: string)
    ensures a != b ==> ClientLink(origin, a) != ClientLink(origin, b)
    ensures a != b ==> LoginLink(origin, a) != LoginLink(origin, b)
    ensures ClientLink(origin, a) != LoginLink(origin, b)
  {
    var c := ClientLink(origin, a);
    var l := LoginLink(origin, b);
    assert c[|origin| + 1] == 'p';
    assert l[|origin| + 1] == 'l';
  }

  // ---- All-projects table ----

  /** The sort comparator: 0 for equal stages, otherwise the order of the
      stage labels (`localeCompare`, here code-point order), negated when
      sorting descending. */
  function StageCompare(a: Project, b: Project, asc: bool): (r: int)
    ensures -1 <= r <= 1
    ensures r == 0 <==> a.stage == b.stage
  {
    if a.stage == b.stage then 0
    else
      var comparison := if LexLess(StageLabel(a.stage), StageLabel(b.stage)) then -1 else 1;
      if asc then comparison else -comparison
  }

  /** `a` may come before `b`. */
  predicate Before(a: Project, b: Project, asc: bool)
  {
    StageCompare(a, b, asc) <= 0
  }

  /** The comparator is antisymmetric and the toggle reverses it. */
  lemma CompareLaws(a: Project, b: Project, asc: bool)
    ensures StageCompare(a, b, asc) == -StageCompare(b, a, asc)
    ensures StageCompare(a, b, !asc) == -StageCompare(a, b, asc)
    ensures StageCompare(a, b, asc) == 0 <==> a.stage == b.stage
    ensures Before(a, b, asc) || Before(b, a, asc)
  {
    if a.stage != b.stage {
      StagesClosed(a.stage);
      LexLessTotal(StageLabel(a.stage), StageLabel(b.stage));
    }
  }

  lemma BeforeTransitive(a: Project, b: Project, c: Project, asc: bool)
    requires Before(a, b, asc) && Before(b, c, asc)
    ensures Before(a, c, asc)
  {
    var la, lb, lc := StageLabel(a.stage), StageLabel(b.stage), StageLabel(c.stage);
    if a.stage != b.stage && b.stage != c.stage && a.stage != c.stage {
      StagesClosed(a.stage);
      StagesClosed(b.stage);
      LexLessTotal(la, lb);
      LexLessTotal(lb, lc);
      LexLessTotal(la, lc);
      if asc {
        LexLessTransitive(la, lb, lc);
      } else {
        LexLessTransitive(lc, lb, la);
      }
    }
  }

  predicate SortedBy(s: seq<Project>, asc: bool)
  {
    forall i, j :: 0 <= i < j < |s| ==> Before(s[i], s[j], asc)
  }

  /** An element that may precede everything in a sorted list extends it. */
  lemma ConsSorted(y: Project, s: seq<Project>, asc: bool)
    requires SortedBy(s, asc)
    requires forall z :: z in s ==> Before(y, z, asc)
    ensures SortedBy([y] + s, asc)
  {
    var r := [y] + s;
    forall i, j | 0 <= i < j < |r| ensures Before(r[i], r[j], asc) {
      if i == 0 {
        assert r[j] == s[j - 1];
      } else {
        assert r[i] == s[i - 1] && r[j] == s[j - 1];
      }
    }
  }

  lemma SortedTail(s: seq<Project>, asc: bool)
    requires SortedBy(s, asc) && |s| > 0
    ensures SortedBy(s[1..], asc)
  {
    forall i, j | 0 <= i < j < |s[1..]| ensures Before(s[1..][i], s[1..][j], asc) {
      assert s[1..][i] == s[i + 1] && s[1..][j] == s[j + 1];
    }
  }

  /** What may precede the head of a sorted list may precede all of it. */
  lemma BeforeAll(x: Project, s: seq<Project>, asc: bool)
    requires SortedBy(s, asc) && |s| > 0 && Before(x, s[0], asc)
    ensures forall z :: z in s ==> Before(x, z, asc)
  {
    forall z | z in s ensures Before(x, z, asc) {
      var k :| 0 <= k < |s| && s[k] == z;
      if k > 0 { BeforeTransitive(x, s[0], z, asc); }
    }
  }

  /** When `x` may not precede the head, the head may precede `x` and the
      rest of the list. */
  lemma HeadBeforeAll(x: Project, s: seq<Project>, rest: seq<Project>, asc: bool)
    requires SortedBy(s, asc) && |s| > 0 && !Before(x, s[0], asc)
    requires multiset(rest) == multiset(s[1..]) + multiset{x}
    ensures forall z :: z in rest ==> Before(s[0], z, asc)
  {
    forall z | z in rest ensures Before(s[0], z, asc) {
      assert z in multiset(rest);
      if z == x {
        CompareLaws(x, s[0], asc);
      } else {
        assert z in multiset(s[1..]);
        var k :| 0 <= k < |s[1..]| && s[1..][k] == z;
        assert s[k + 1] == z;
      }
    }
  }

  /** Insert `x` before the first element it may precede. */
  function Insert(x: Project, s: seq<Project>, asc: bool): (r: seq<Project>)
    requires SortedBy(s, asc)
    ensures multiset(r) == multiset(s) + multiset{x}
    ensures SortedBy(r, asc)
  {
    if |s| == 0 then [x]
    else if Before(x, s[0], asc) then
      BeforeAll(x, s, asc);
      ConsSorted(x, s, asc);
      [x] + s
    else
      assert s == [s[0]] + s[1..];
      SortedTail(s, asc);
      var rest := Insert(x, s[1..], asc);
      HeadBeforeAll(x, s, rest, asc);
      ConsSorted(s[0], rest, asc);
      [s[0]] + rest
  }

  /** `[...projects].sort(comparator)`: a new list, a permutation of the
      input, ordered by the comparator. */
  function SortByStage(ps: seq<Project>, asc: bool): (r: seq<Project>)
    ensures multiset(r) == multiset(ps)
    ensures |r| == |ps|
    ensures SortedBy(r, asc)
  {
    if |ps| == 0 then []
    else
      assert ps == [ps[0]] + ps[1..];
      Insert(ps[0], SortByStage(ps[1..], asc), asc)
  }

  /** The projects of stage `k`, in their order in `s`. */
  function OfStage(s: seq<Project>, k: ProjectStage): seq<Project>
  {
    if |s| == 0 then []
    else (if s[0].stage == k then [s[0]] else []) + OfStage(s[1..], k)
  }

  lemma OfStageCons(y: Project, t: seq<Project>, k: ProjectStage)
    ensures OfStage([y] + t, k) == (if y.stage == k then [y] else []) + OfStage(t, k)
  {
    assert ([y] + t)[1..] == t;
  }

  /** `Insert` puts `x` before every project of its own stage. */
  lemma {:induction false} InsertStable(x: Project, s: seq<Project>, asc: bool, k: ProjectStage)
    requires SortedBy(s, asc)
    ensures OfStage(Insert(x, s, asc), k) == (if x.stage == k then [x] else []) + OfStage(s, k)
  {
    if |s| == 0 {
      OfStageCons(x, [], k);
    } else if Before(x, s[0], asc) {
      OfStageCons(x, s, k);
    } else {
      CompareLaws(x, s[0], asc);
      SortedTail(s, asc);
      var rest := Insert(x, s[1..], asc);
      assert Insert(x, s, asc) == [s[0]] + rest;
      InsertStable(x, s[1..], asc, k);
      OfStageCons(s[0], rest, k);
      OfStageCons(s[0], s[1..], k);
      assert s == [s[0]] + s[1..];
      if x.stage == k {
        assert OfStage(Insert(x, s, asc), k) == [x] + OfStage(s[1..], k);
      }
    }
  }

  /** The sort is stable: the projects of each stage keep their input order. */
  lemma {:induction false} SortByStageStable(ps: seq<Project>, asc: bool)
    ensures forall k :: OfStage(SortByStage(ps, asc), k) == OfStage(ps, k)
  {
    if |ps| > 0 {
      SortByStageStable(ps[1..], asc);
      forall k ensures OfStage(SortByStage(ps, asc), k) == OfStage(ps, k) {
        InsertStable(ps[0], SortByStage(ps[1..], asc), asc, k);
      }
    }
  }

  /** In terms of the labels: ascending, each row's stage label is at most
      the next row's; descending, at least. */
  lemma SortedByLabel(r: seq<Project>, asc: bool, i: int, j: int)
    requires SortedBy(r, asc) && 0 <= i < j < |r|
    ensures r[i].stage == r[j].stage
            || (asc && LexLess(StageLabel(r[i].stage), StageLabel(r[j].stage)))
            || (!asc && LexLess(StageLabel(r[j].stage), StageLabel(r[i].stage)))
  {
    assert Before(r[i], r[j], asc);
    if r[i].stage != r[j].stage && !asc {
      StagesClosed(r[i].stage);
      LexLessTotal(StageLabel(r[i].stage), StageLabel(r[j].stage));
    }
  }

  /** `hasTor`: a brief is present and not blank once trimmed. */
  predicate HasTor(p: Project)
  {
    p.technicalTask.Some? && p.technicalTask.value != "" && |Trim(p.technicalTask.value)| > 0
  }

  /** The brief counts exactly when it holds a non-whitespace character. */
  lemma HasTorIff(p: Project)
    ensures HasTor(p) <==> (p.technicalTask.Some? &&
              exists i :: 0 <= i < |p.technicalTask.value| && !IsWhitespace(p.technicalTask.value[i]))
  {
    if p.technicalTask.Some? {
      TrimNonEmptyIff(p.technicalTask.value);
    }
  }

  /** The architect or designer column: the full name, or a dash. */
  function RowName(users: seq<User>, id: string): (name: string)
    ensures name != ""
    ensures name == NoName || exists u :: u in users && u.id == id && u.fullName == Some(name)
    ensures (forall u :: u in users ==> u.id != id) ==> name == NoName
    ensures HasShownName(FindUser(users, id)) ==> name == FindUser(users, id).value.fullName.value
    ensures !HasShownName(FindUser(users, id)) ==> name == NoName
  {
    DisplayName(users, id, NoName)
  }

  /** handleNoteChange: the project with only its note replaced. */
  function HandleNoteChange(p: Project, note: string): (r: Project)
    ensures r.notes == Some(note)
    ensures r.(notes := p.notes) == p
  {
    p.(notes := Some(note))
  }

  /** The table's own state: the sort direction and the project whose
      brief is open for editing. */
  class AllProjectsList {
    var sortAsc: bool
    var torProject: Option<Project>

    constructor()
      ensures sortAsc && torProject.None?
    {
      sortAsc := true;
      torProject := None;
    }

    /** The rows, in the current direction. */
    function Rows(projects: seq<Project>): (rows: seq<Project>)
      reads this
      ensures multiset(rows) == multiset(projects)
      ensures SortedBy(rows, sortAsc)
      ensures forall k :: OfStage(rows, k) == OfStage(projects, k)
    {
      SortByStageStable(projects, sortAsc);
      SortByStage(projects, sortAsc)
    }

    /** A click on the stage header. */
    method ToggleSort()
      modifies this`sortAsc
      ensures sortAsc == !old(sortAsc)
    {
      sortAsc := !sortAsc;
    }

    /** A click on a row's brief button. */
    method OpenTor(p: Project)
      modifies this`torProject
      ensures torProject == Some(p)
    {
      torProject := Some(p);
    }

    /** Cancel, or a click outside the editor. */
    method CloseTor()
      modifies this`torProject
      ensures torProject.None?
    {
      torProject := None;
    }

    /** handleTorSave: with a project open, the update to send (that project
        with only its brief replaced) and the editor closes; with none open,
        nothing happens. */
    method SaveTor(newTor: string) returns (update: Option<Project>)
      modifies this`torProject
      ensures old(torProject).None? ==> update.None? && torProject.None?
      ensures old(torProject).Some? ==>
                && update == Some(old(torProject).value.(technicalTask := Some(newTor)))
                && torProject.None?
    {
      if torProject.Some? {
        update := Some(torProject.value.(technicalTask := Some(newTor)));
        torProject := None;
      } else {
        update := None;
      }
    }
  }
}
