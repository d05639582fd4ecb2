// The dashboard shell of App.tsx: the session, the user and project lists
// and the handlers that replace them, the modal flags, and the admin-only
// views.
module App {
  import opened Wrappers
  import opened Types
  import opened Lookup

  /** The built-in accounts that keep the site usable offline. */
  const InitialUsers: seq<User> :=
    [User("1", "admin", Some("123456"), Admin, Some("Super Admin"), None, None, None, None, None)]

  const StatusReady: string := "Готов"
  const StatusStored: string := "Пользователь в базе!"
  const StatusStoredLocally: string := "Ошибка Firebase, сохранено локально"

  /** `isAdmin(user)`: signed in, as an administrator. */
  predicate IsAdmin(u: Option<User>)
  {
    u.Some? && u.value.role == Admin
  }

  /** The pages of the main area. Only the dashboard is offered to everyone. */
  datatype View = DashboardView | ArchitectsView | DesignersView | FinancesView | LinksView

  /** The navigation offers the admin pages only to an administrator. */
  predicate ViewOffered(u: Option<User>, v: View)
  {
    v == DashboardView || IsAdmin(u)
  }

  // ---- Project list operations ----

  /** `Partial<Project>`: each key present or absent. */
  datatype ProjectPatch = ProjectPatch(
    id: Option<string>,
    name: Option<string>,
    startDate: Option<Day>,
    endDate: Option<Day>,
    stage: Option<ProjectStage>,
    architectId: Option<string>,
    designerId: Option<string>,
    dates: Option<ProjectDates>,
    links: Option<ProjectLinks>,
    financials: Option<ProjectFinancials>,
    coverPhotoUrl: Option<Option<string>>,
    technicalTask: Option<Option<string>>,
    notes: Option<Option<string>>)

  /** `{ ...item, ...patch }`: the keys present in the patch win. */
  function Merge(item: Project, patch: ProjectPatch): (r: Project)
    ensures patch == EmptyPatch ==> r == item
    ensures forall q :: patch == PatchOf(q) ==> r == q
    ensures patch.id.None? ==> r.id == item.id
  {
    Project(
      patch.id.GetOr(item.id),
      patch.name.GetOr(item.name),
      patch.startDate.GetOr(item.startDate),
      patch.endDate.GetOr(item.endDate),
      patch.stage.GetOr(item.stage),
      patch.architectId.GetOr(item.architectId),
      patch.designerId.GetOr(item.designerId),
      patch.dates.GetOr(item.dates),
      patch.links.GetOr(item.links),
      patch.financials.GetOr(item.financials),
      patch.coverPhotoUrl.GetOr(item.coverPhotoUrl),
      patch.technicalTask.GetOr(item.technicalTask),
      patch.notes.GetOr(item.notes))
  }

  /** A whole project as a patch, every key present. */
  function PatchOf(p: Project): ProjectPatch
  {
    ProjectPatch(
      Some(p.id), Some(p.name), Some(p.startDate), Some(p.endDate), Some(p.stage),
      Some(p.architectId), Some(p.designerId), Some(p.dates), Some(p.links),
      Some(p.financials), Some(p.coverPhotoUrl), Some(p.technicalTask), Some(p.notes))
  }

  const EmptyPatch: ProjectPatch :=
    ProjectPatch(None, None, None, None, None, None, None, None, None, None, None, None, None)

  /** A full patch replaces the item; an empty one leaves it; merging twice
      with the same patch is merging once. */
  lemma MergeLaws(item: Project, p: Project, patch: ProjectPatch)
    ensures Merge(item, PatchOf(p)) == p
    ensures Merge(item, EmptyPatch) == item
    ensures Merge(Merge(item, patch), patch) == Merge(item, patch)
  {
  }

  /** Does the patch's id select this item? An absent id selects nothing. */
  predicate Selects(patch: ProjectPatch, item: Project)
  {
    patch.id == Some(item.id)
  }

  /** handleUpdateProject's list: same length and order, each selected item
      merged with the patch, every other item as it was. */
  function UpdatedById(ps: seq<Project>, patch: ProjectPatch): (r: seq<Project>)
    ensures |r| == |ps|
    ensures forall i :: 0 <= i < |ps| && !Selects(patch, ps[i]) ==> r[i] == ps[i]
    ensures forall i :: 0 <= i < |ps| && Selects(patch, ps[i]) ==> r[i] == Merge(ps[i], patch)
  {
    if |ps| == 0 then []
    else [if Selects(patch, ps[0]) then Merge(ps[0], patch) else ps[0]] + UpdatedById(ps[1..], patch)
  }

  /** handleDeleteProject's list. */
  function RemovedById(ps: seq<Project>, id: string): (r: seq<Project>)
    ensures forall q :: q in r ==> q in ps && q.id != id
    ensures forall q: Project :: q.id != id ==> multiset(r)[q] == multiset(ps)[q]
  {
    Filter(ps, (q: Project) => q.id != id)
  }

  /** handleCreateProject's list: the project under its fresh id, appended. */
  function Appended(ps: seq<Project>, p: Project, freshId: string): (r: seq<Project>)
    ensures |r| == |ps| + 1 && r[..|ps|] == ps && r[|ps|].id == freshId
    ensures r[|ps|] == p.(id := freshId)
  {
    ps + [p.(id := freshId)]
  }

  /** No two projects share an id. */
  predicate UniqueIds(ps: seq<Project>)
  {
    forall i, j :: 0 <= i < j < |ps| ==> ps[i].id != ps[j].id
  }

  predicate IdFree(ps: seq<Project>, id: string)
  {
    forall q :: q in ps ==> q.id != id
  }

  /** Deleting the project just created restores the list. */
  lemma DeleteUndoesCreate(ps: seq<Project>, p: Project, freshId: string)
    requires IdFree(ps, freshId)
    ensures RemovedById(Appended(ps, p, freshId), freshId) == ps
  {
    var keep := (q: Project) => q.id != freshId;
    FilterAppend(ps, [p.(id := freshId)], keep);
    FilterAll(ps, keep);
    assert Filter([p.(id := freshId)], keep) == [];
  }

  /** Ids stay unique under all three operations. An update keeps every
      id, since a patch only touches the items whose id it carries. */
  lemma UpdateKeepsUnique(ps: seq<Project>, patch: ProjectPatch)
    requires UniqueIds(ps)
    ensures forall i :: 0 <= i < |ps| ==> UpdatedById(ps, patch)[i].id == ps[i].id
    ensures UniqueIds(UpdatedById(ps, patch))
  {
  }

  lemma CreateKeepsUnique(ps: seq<Project>, p: Project, freshId: string)
    requires UniqueIds(ps) && IdFree(ps, freshId)
    ensures UniqueIds(Appended(ps, p, freshId))
  {
    var r := Appended(ps, p, freshId);
    forall i, j | 0 <= i < j < |r| ensures r[i].id != r[j].id {
      if j == |ps| {
        assert r[i] == ps[i];
      } else {
        assert r[i] == ps[i] && r[j] == ps[j];
      }
    }
  }

  lemma {:induction false} DeleteKeepsUnique(ps: seq<Project>, id: string)
    requires UniqueIds(ps)
    ensures UniqueIds(RemovedById(ps, id))
    decreases |ps|
  {
    if |ps| > 0 {
      UniqueTail(ps);
      DeleteKeepsUnique(ps[1..], id);
      var rest := RemovedById(ps[1..], id);
      assert ps == [ps[0]] + ps[1..];
      if ps[0].id != id {
        assert RemovedById(ps, id) == [ps[0]] + rest;
        forall q | q in rest ensures q.id != ps[0].id {
          var k :| 0 <= k < |ps[1..]| && ps[1..][k] == q;
          assert ps[k + 1] == q;
        }
        UniqueCons(ps[0], rest);
      } else {
        assert RemovedById(ps, id) == rest;
      }
    }
  }

  /** Dropping the first project keeps ids distinct. */
  lemma UniqueTail(ps: seq<Project>)
    requires UniqueIds(ps) && |ps| > 0
    ensures UniqueIds(ps[1..])
  {
    forall i, j | 0 <= i < j < |ps[1..]| ensures ps[1..][i].id != ps[1..][j].id {
      assert ps[1..][i] == ps[i + 1] && ps[1..][j] == ps[j + 1];
    }
  }

  /** A project whose id is not in a list of distinct ids extends it. */
  lemma UniqueCons(p: Project, ps: seq<Project>)
    requires UniqueIds(ps) && IdFree(ps, p.id)
    ensures UniqueIds([p] + ps)
  {
    var r := [p] + ps;
    forall i, j | 0 <= i < j < |r| ensures r[i].id != r[j].id {
      assert r[j] == ps[j - 1];
      if i > 0 { assert r[i] == ps[i - 1]; }
    }
  }

  /** The merge with initial users: a non-empty fetch replaces the list with
      the built-in accounts followed by the fetched ones. */
  function MergedUsers(current: seq<User>, fetched: Option<seq<User>>): (r: seq<User>)
    ensures fetched.Some? && |fetched.value| > 0 ==> |r| == |InitialUsers| + |fetched.value|
    ensures fetched.Some? && |fetched.value| > 0 ==> r[..|InitialUsers|] == InitialUsers
    ensures fetched.Some? && |fetched.value| > 0 ==> r[|InitialUsers|..] == fetched.value
    ensures !(fetched.Some? && |fetched.value| > 0) ==> r == current
  {
    if fetched.Some? && |fetched.value| > 0 then InitialUsers + fetched.value else current
  }

  /** The admin account survives every fetch. */
  lemma AdminSurvivesFetch(current: seq<User>, fetched: Option<seq<User>>)
    requires InitialUsers[0] in current
    ensures InitialUsers[0] in MergedUsers(current, fetched)
    ensures exists u :: u in MergedUsers(current, fetched) && u.role == Admin
  {
    var r := MergedUsers(current, fetched);
    if fetched.Some? && |fetched.value| > 0 {
      assert r[0] == InitialUsers[0];
    }
  }

  /** The dashboard's state. */
  class Dashboard {
    var currentUser: Option<User>
    var users: seq<User>
    var projects: seq<Project>
    var view: View
    var isProjectModalOpen: bool
    var isUserModalOpen: bool
    var selectedProject: Option<Project>
    var status: string

    /** The page shown is one the navigation offers to whoever is signed
        in, and the signed-out state rests on the dashboard. */
    ghost predicate Valid()
      reads this
    {
      ViewOffered(currentUser, view) && (currentUser.None? ==> view == DashboardView)
    }

    /** The initial state, with the session restored from storage when one
        was saved (`savedUser`). */
    constructor(initialProjects: seq<Project>, savedUser: Option<User>)
      ensures currentUser == savedUser && users == InitialUsers && projects == initialProjects
      ensures view == DashboardView && !isProjectModalOpen && !isUserModalOpen
      ensures selectedProject.None? && status == StatusReady
      ensures Valid()
    {
      currentUser := savedUser;
      users := InitialUsers;
      projects := initialProjects;
      view := DashboardView;
      isProjectModalOpen := false;
      isUserModalOpen := false;
      selectedProject := None;
      status := StatusReady;
    }

    /** The user fetch: `fetched` is what the database returned, None when
        it could not be reached. */
    method LoadUsers(fetched: Option<seq<User>>)
      modifies this
      ensures users == MergedUsers(old(users), fetched)
      ensures currentUser == old(currentUser) && projects == old(projects) && view == old(view)
      ensures isProjectModalOpen == old(isProjectModalOpen) && isUserModalOpen == old(isUserModalOpen)
      ensures selectedProject == old(selectedProject) && status == old(status)
    {
      if fetched.Some? && |fetched.value| > 0 {
        users := InitialUsers + fetched.value;
      }
    }

    /** handleLogin, reached from the sign-in screen, which is shown only
        while nobody is signed in. */
    method Login(u: User)
      requires currentUser.None?
      modifies this`currentUser
      ensures currentUser == Some(u)
      ensures old(Valid()) ==> Valid()
    {
      currentUser := Some(u);
    }

    /** handleLogout, corrected: the session ends and the main area returns
        to the dashboard, so the next user does not inherit an admin page. */
    method Logout()
      modifies this`currentUser, this`view
      ensures currentUser.None? && view == DashboardView
      ensures Valid()
    {
      currentUser := None;
      view := DashboardView;
    }

    /** handleLogout as written: only the session ends. */
    method LogoutAsWritten()
      modifies this`currentUser
      ensures currentUser.None?
    {
      currentUser := None;
    }

    /** A navigation button: only the buttons offered can be pressed. */
    method ShowView(v: View)
      requires ViewOffered(currentUser, v)
      modifies this`view
      ensures view == v
      ensures Valid()
    {
      view := v;
    }

    /** handleCreateUser: the new user, under the id the database gave it
        (or a random one when it could not be reached), is appended in both
        cases; only the status message tells them apart. */
    method CreateUser(data: User, newId: string, stored: bool)
      modifies this`users, this`isUserModalOpen, this`status
      ensures users == old(users) + [data.(id := newId)]
      ensures !isUserModalOpen
      ensures status == (if stored then StatusStored else StatusStoredLocally)
    {
      users := users + [data.(id := newId)];
      isUserModalOpen := false;
      status := if stored then StatusStored else StatusStoredLocally;
    }

    /** The "+ Project" button, offered to administrators. */
    method OpenNewProject()
      requires IsAdmin(currentUser)
      modifies this`selectedProject, this`isProjectModalOpen
      ensures selectedProject.None? && isProjectModalOpen
    {
      selectedProject := None;
      isProjectModalOpen := true;
    }

    /** The "+ User" button, offered to administrators. */
    method OpenUserModal()
      requires IsAdmin(currentUser)
      modifies this`isUserModalOpen
      ensures isUserModalOpen
    {
      isUserModalOpen := true;
    }

    /** The project editor's close button. */
    method CloseProjectModal()
      modifies this`isProjectModalOpen
      ensures !isProjectModalOpen
    {
      isProjectModalOpen := false;
    }

    /** A click on a bar of the timeline. */
    method OpenProject(p: Project)
      modifies this`selectedProject, this`isProjectModalOpen
      ensures selectedProject == Some(p) && isProjectModalOpen
    {
      selectedProject := Some(p);
      isProjectModalOpen := true;
    }

    /** handleCreateProject. */
    method CreateProject(p: Project, freshId: string)
      modifies this`projects, this`isProjectModalOpen
      ensures projects == Appended(old(projects), p, freshId)
      ensures !isProjectModalOpen
    {
      projects := projects + [p.(id := freshId)];
      isProjectModalOpen := false;
    }

    /** handleUpdateProject. */
    method UpdateProject(patch: ProjectPatch)
      modifies this`projects, this`isProjectModalOpen
      ensures projects == UpdatedById(old(projects), patch)
      ensures !isProjectModalOpen
    {
      projects := UpdatedById(projects, patch);
      isProjectModalOpen := false;
    }

    /** handleDeleteProject. */
    method DeleteProject(id: string)
      modifies this`projects, this`isProjectModalOpen
      ensures projects == RemovedById(old(projects), id)
      ensures !isProjectModalOpen
    {
      projects := RemovedById(projects, id);
      isProjectModalOpen := false;
    }

    /** The editor's save: an update when a project was selected, otherwise
        a creation under a fresh id. */
    method SaveFromModal(p: Project, freshId: string)
      modifies this`projects, this`isProjectModalOpen
      ensures old(selectedProject).Some? ==> projects == UpdatedById(old(projects), PatchOf(p))
      ensures old(selectedProject).None? ==> projects == Appended(old(projects), p, freshId)
      ensures !isProjectModalOpen
    {
      if selectedProject.Some? {
        UpdateProject(PatchOf(p));
      } else {
        CreateProject(p, freshId);
      }
    }
  }

  /** As written, an administrator's page outlives their session: after
      the admin opens the finance table and signs out, the next user, a
      designer, is shown the finance table. */
  method AdminViewOutlivesLogout(admin: User, designer: User, initialProjects: seq<Project>)
      returns (d: Dashboard)
    requires admin.role == Admin && designer.role == Designer
    ensures d.currentUser == Some(designer) && d.view == FinancesView
    ensures !ViewOffered(d.currentUser, d.view)
  {
    d := new Dashboard(initialProjects, None);
    d.Login(admin);
    d.ShowView(FinancesView);
    d.LogoutAsWritten();
    d.Login(designer);
  }

  /** With the corrected logout, the same sequence of steps lands the
      designer on the dashboard. */
  method NextUserSeesDashboard(admin: User, designer: User, initialProjects: seq<Project>)
      returns (d: Dashboard)
    requires admin.role == Admin && designer.role == Designer
    ensures d.currentUser == Some(designer) && d.view == DashboardView
    ensures ViewOffered(d.currentUser, d.view)
  {
    d := new Dashboard(initialProjects, None);
    d.Login(admin);
    d.ShowView(FinancesView);
    d.Logout();
    d.Login(designer);
  }
}
