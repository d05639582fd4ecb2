// The financial "checks" of components/ProjectChecks.tsx: the per-project
// split into studio and architect totals, the 30% prepayment and the
// balances, the card numbering, and what each role is shown.
module ProjectChecks {
  import opened Wrappers
  import opened Types
  import opened Lookup

  /** Default number of the first card. */
  const DefaultStartIndex: int := 150
  /** The fixed prepayment share of the studio total (0.3 in the source). */
  const PrepaymentRate: real := 3.0 / 10.0
  /** Shown for a missing architect or designer. */
  const Unassigned: string := "Не назначен"
  /** Shown for a missing payment date. */
  const NoDateMark: string := "—"

  datatype Split = Split(
    totalStudio: real,
    totalArch: real,
    prepayment: real,
    postpaymentArch: real,
    balanceStudio: real,
    balanceArch: real)

  /** The calculation block of a card. The architect balance is reduced by
      the studio prepayment, not by a share of the architect total. */
  function FinancialSplit(f: ProjectFinancials): (s: Split)
    ensures s.totalStudio == f.area * f.costPerMeterStudio
    ensures s.totalArch == f.area * f.costPerMeterArch
    ensures s.prepayment + s.balanceStudio == s.totalStudio
    ensures s.balanceStudio == (7.0 / 10.0) * s.totalStudio
    ensures s.balanceArch + s.prepayment == s.totalArch
    ensures s.postpaymentArch == s.balanceArch
  {
    var totalStudio := f.area * f.costPerMeterStudio;
    var totalArch := f.area * f.costPerMeterArch;
    var prepaymentStudio := totalStudio * PrepaymentRate;
    var postpaymentArch := totalArch - prepaymentStudio;
    var balanceStudio := totalStudio - prepaymentStudio;
    var balanceArch := totalArch - prepaymentStudio;
    Split(totalStudio, totalArch, prepaymentStudio, postpaymentArch, balanceStudio, balanceArch)
  }

  /** The worked example: 100 m² at 5000 and 2000 per m². */
  lemma SplitExample(f: ProjectFinancials)
    requires f.area == 100.0 && f.costPerMeterStudio == 5000.0 && f.costPerMeterArch == 2000.0
    ensures FinancialSplit(f) == Split(500000.0, 200000.0, 150000.0, 50000.0, 350000.0, 50000.0)
  {
  }

  /** Because of the cross-track subtraction, the architect balance is
      negative exactly when the architect rate is below 30% of the studio
      rate (for a positive area). */
  lemma ArchBalanceSign(f: ProjectFinancials)
    requires f.area > 0.0
    ensures FinancialSplit(f).balanceArch < 0.0 <==> f.costPerMeterArch < PrepaymentRate * f.costPerMeterStudio
  {
    var d := f.costPerMeterArch - PrepaymentRate * f.costPerMeterStudio;
    assert FinancialSplit(f).balanceArch == f.area * d;
    if d < 0.0 {
      assert f.area * d < 0.0;
    } else {
      assert f.area * d >= 0.0;
    }
  }

  /** The "paid" stamp: a payment date has been entered. */
  predicate IsPaid(f: ProjectFinancials)
  {
    f.paymentDate != ""
  }

  /** Studio rate, studio total and studio balance. */
  predicate SeesStudioFigures(role: UserRole)
  {
    role == Designer || role == Admin
  }

  /** Architect rate, architect total and architect balance. */
  predicate SeesArchFigures(role: UserRole)
  {
    role == Architect || role == Admin
  }

  /** The names of the architects a payment goes to. */
  predicate SeesPayees(role: UserRole)
  {
    role != Architect
  }

  /** What one card of the checks page shows. */
  datatype CheckCard = CheckCard(
    number: int,
    paid: bool,
    area: real,
    studioRate: Option<real>,
    archRate: Option<real>,
    totalStudio: Option<real>,
    totalArch: Option<real>,
    prepayment: real,
    prepaymentPayee: Option<string>,
    balanceStudio: Option<real>,
    paymentPayee: Option<string>,
    balanceArch: Option<real>,
    paymentDates: Option<(string, string)>,
    architectName: string,
    designerName: string)

  function When<T>(shown: bool, x: T): Option<T>
  {
    if shown then Some(x) else None
  }

  /** A payee line: the architect's name, or nothing when none is chosen. */
  function PayeeLine(users: seq<User>, id: Option<string>, role: UserRole): Option<string>
  {
    var payee := FindUserByOptionalId(users, id);
    if payee.Some? && SeesPayees(role) then Some(payee.value.fullName.GetOr("")) else None
  }

  function OrDash(s: string): string
  {
    if s != "" then s else NoDateMark
  }

  /** The card of the project at position `idx` of the list. */
  function CheckCardOf(users: seq<User>, role: UserRole, startIndex: int, idx: int, p: Project): (c: CheckCard)
    ensures c.number == startIndex + idx
    ensures c.paid <==> p.financials.paymentDate != ""
    ensures c.totalStudio.Some? <==> SeesStudioFigures(role)
    ensures c.totalArch.Some? <==> SeesArchFigures(role)
    ensures c.paymentPayee.Some? ==> SeesStudioFigures(role) && SeesPayees(role)
    ensures c.architectName != "" && c.designerName != ""
  {
    var f := p.financials;
    var s := FinancialSplit(f);
    var studio := SeesStudioFigures(role);
    var arch := SeesArchFigures(role);
    CheckCard(
      startIndex + idx,
      IsPaid(f),
      f.area,
      When(studio, f.costPerMeterStudio),
      When(arch, f.costPerMeterArch),
      When(studio, s.totalStudio),
      When(arch, s.totalArch),
      s.prepayment,
      PayeeLine(users, f.prepaymentArchitectId, role),
      When(studio, s.balanceStudio),
      if studio then PayeeLine(users, f.paymentArchitectId, role) else None,
      When(arch, s.balanceArch),
      When(role == Designer, (OrDash(f.prepaymentDate), OrDash(f.paymentDate))),
      DisplayName(users, p.architectId, Unassigned),
      DisplayName(users, p.designerId, Unassigned))
  }

  /** What each role sees on a card, role by role. */
  lemma CardByRole(users: seq<User>, role: UserRole, startIndex: int, idx: int, p: Project)
    ensures var c := CheckCardOf(users, role, startIndex, idx, p);
            var s := FinancialSplit(p.financials);
            && c.prepayment == PrepaymentRate * s.totalStudio
            && (role == Architect ==>
                  && c.totalStudio.None? && c.balanceStudio.None? && c.studioRate.None?
                  && c.totalArch == Some(s.totalArch) && c.balanceArch == Some(s.balanceArch)
                  && c.prepaymentPayee.None? && c.paymentPayee.None? && c.paymentDates.None?)
            && (role == Designer ==>
                  && c.totalStudio == Some(s.totalStudio) && c.balanceStudio == Some(s.balanceStudio)
                  && c.totalArch.None? && c.balanceArch.None? && c.archRate.None?
                  && c.paymentDates.Some?)
            && (role == Admin ==>
                  && c.totalStudio == Some(s.totalStudio) && c.balanceStudio == Some(s.balanceStudio)
                  && c.totalArch == Some(s.totalArch) && c.balanceArch == Some(s.balanceArch)
                  && c.paymentDates.None?)
            && (role == Client ==>
                  && c.totalStudio.None? && c.balanceStudio.None? && c.totalArch.None?
                  && c.balanceArch.None? && c.paymentPayee.None? && c.paymentDates.None?)
  {
  }

  /** The cards of the page, one per project, in order. */
  function CheckCards(users: seq<User>, role: UserRole, startIndex: int, projects: seq<Project>): (cards: seq<CheckCard>)
    ensures |cards| == |projects|
    ensures forall i :: 0 <= i < |cards| ==> cards[i] == CheckCardOf(users, role, startIndex, i, projects[i])
    ensures forall i :: 0 <= i < |cards| ==> cards[i].number == startIndex + i
    ensures forall i, j :: 0 <= i < j < |cards| ==> cards[i].number < cards[j].number
  {
    seq(|projects|, i requires 0 <= i < |projects| => CheckCardOf(users, role, startIndex, i, projects[i]))
  }

  /** Names fall back to "unassigned" for an empty or dangling reference. */
  lemma DanglingNames(users: seq<User>, role: UserRole, startIndex: int, idx: int, p: Project)
    requires forall u :: u in users ==> u.id != p.architectId
    ensures CheckCardOf(users, role, startIndex, idx, p).architectName == Unassigned
  {
  }
}
