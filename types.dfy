// The domain types of the dashboard (types.ts): the closed role and stage
// enumerations, their lookup tables, and the user and project records.
module Types {
  import opened Wrappers

  /** A calendar date as a day number: days since 1970-01-01 (UTC). */
  type Day = int

  /** A date field that the source stores as a string: '' when unset,
      otherwise an ISO calendar date, identified here by its day number. */
  datatype DateStr = NoDate | OnDay(day: Day)

  datatype UserRole = Admin | Architect | Designer | Client

  const AllRoles: seq<UserRole> := [Admin, Architect, Designer, Client]

  /** The enum's string value. */
  function RoleName(r: UserRole): string
  {
    match r
    case Admin => "ADMIN"
    case Architect => "ARCHITECT"
    case Designer => "DESIGNER"
    case Client => "CLIENT"
  }

  /** ROLE_TRANSLATIONS: the Russian label of each role. */
  function RoleTranslation(r: UserRole): (translation: string)
    ensures translation != ""
  {
    match r
    case Admin => "Администратор"
    case Architect => "Архитектор"
    case Designer => "Дизайнер"
    case Client => "Заказчик"
  }

  /** The role enumeration is closed: exactly four pairwise distinct values,
      each with its own string value and its own label. */
  lemma RolesClosed(r: UserRole)
    ensures r in AllRoles && |AllRoles| == 4
    ensures forall i, j :: 0 <= i < j < |AllRoles| ==> AllRoles[i] != AllRoles[j]
    ensures forall q :: RoleName(q) == RoleName(r) ==> q == r
    ensures forall q :: RoleTranslation(q) == RoleTranslation(r) ==> q == r
  {
  }

  datatype ProjectStage =
    | Queue | Start | Mounting | Electrics | Edits1 | Edits2 | Edits3
    | Finish | Completed | Waiting

  const AllStages: seq<ProjectStage> :=
    [Queue, Start, Mounting, Electrics, Edits1, Edits2, Edits3, Finish, Completed, Waiting]

  /** The enum's string value, which is also the label shown to users. */
  function StageLabel(s: ProjectStage): string
  {
    match s
    case Queue => "В очереди"
    case Start => "Начало"
    case Mounting => "Монтаж"
    case Electrics => "Электрика"
    case Edits1 => "Первый круг правок"
    case Edits2 => "Второй круг правок"
    case Edits3 => "Третий круг правок"
    case Finish => "Финиш"
    case Completed => "Завершено"
    case Waiting => "Ждет информации"
  }

  /** The stage enumeration is closed: ten values with pairwise distinct labels. */
  lemma StagesClosed(s: ProjectStage)
    ensures s in AllStages && |AllStages| == 10
    ensures forall t :: StageLabel(t) == StageLabel(s) ==> t == s
  {
  }

  /** STAGE_COLORS: the style of each stage, an opaque class string. */
  function StageColor(s: ProjectStage): (style: string)
    ensures style != ""
  {
    match s
    case Queue => "bg-gray-100 text-gray-500 border border-gray-200"
    case Start => "bg-blue-50 text-blue-700"
    case Mounting => "bg-yellow-100 text-yellow-700"
    case Electrics => "bg-orange-100 text-orange-700"
    case Edits1 => "bg-purple-100 text-purple-700"
    case Edits2 => "bg-purple-200 text-purple-800"
    case Edits3 => "bg-purple-300 text-purple-900"
    case Finish => "bg-teal-100 text-teal-700"
    case Completed => "bg-green-100 text-green-700"
    case Waiting => "bg-red-50 text-red-600"
  }

  datatype User = User(
    id: string,
    username: string,
    password: Option<string>,
    role: UserRole,
    fullName: Option<string>,
    photoUrl: Option<string>,
    bio: Option<string>,
    dob: Option<string>,
    paymentDetails: Option<string>,
    costPerM2: Option<string>)

  /** The five named milestones of ProjectDates. */
  datatype Milestone = MountingDate | ElectricDate | Edit1Date | Edit2Date | Edit3Date

  datatype ProjectDates = ProjectDates(
    mounting: DateStr, electric: DateStr, edit1: DateStr, edit2: DateStr, edit3: DateStr)

  function MilestoneDate(d: ProjectDates, m: Milestone): DateStr
  {
    match m
    case MountingDate => d.mounting
    case ElectricDate => d.electric
    case Edit1Date => d.edit1
    case Edit2Date => d.edit2
    case Edit3Date => d.edit3
  }

  /** The six named links of ProjectLinks. */
  datatype LinkKind = Source | Visuals | Tor | Pdf | Dwg | Hvac

  datatype ProjectLinks = ProjectLinks(
    source: string, visuals: string, tor: string, pdf: string, dwg: string, hvac: string)

  function Link(l: ProjectLinks, k: LinkKind): string
  {
    match k
    case Source => l.source
    case Visuals => l.visuals
    case Tor => l.tor
    case Pdf => l.pdf
    case Dwg => l.dwg
    case Hvac => l.hvac
  }

  /** Numbers are JavaScript numbers, modelled as reals without rounding. */
  datatype ProjectFinancials = ProjectFinancials(
    area: real,
    costPerMeterStudio: real,
    costPerMeterArch: real,
    prepaymentDate: string,
    paymentDate: string,
    prepaymentArchitectId: Option<string>,
    paymentArchitectId: Option<string>)

  /** A project always carries the three sub-records in full. */
  datatype Project = Project(
    id: string,
    name: string,
    startDate: Day,
    endDate: Day,
    stage: ProjectStage,
    architectId: string,
    designerId: string,
    dates: ProjectDates,
    links: ProjectLinks,
    financials: ProjectFinancials,
    coverPhotoUrl: Option<string>,
    technicalTask: Option<string>,
    notes: Option<string>)
}
