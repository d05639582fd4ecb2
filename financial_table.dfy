// The admin's finance table of components/FinancialTable.tsx: the
// single-field financial update, the payee choices, and the per-project
// card, whose figures are those of the checks page.
module FinancialTable {
  import opened Wrappers
  import opened Text
  import opened Types
  import opened Lookup
  import ProjectChecks

  /** The keys of ProjectFinancials. */
  datatype FinancialField =
    | Area | CostPerMeterStudio | CostPerMeterArch
    | PrepaymentDate | PaymentDate | PrepaymentArchitectId | PaymentArchitectId

  /** The key as the source spells it. */
  function FieldName(f: FinancialField): string
  {
    match f
    case Area => "area"
    case CostPerMeterStudio => "costPerMeterStudio"
    case CostPerMeterArch => "costPerMeterArch"
    case PrepaymentDate => "prepaymentDate"
    case PaymentDate => "paymentDate"
    case PrepaymentArchitectId => "prepaymentArchitectId"
    case PaymentArchitectId => "paymentArchitectId"
  }

  /** The test the handler applies to the key's name. */
  predicate StoresRawString(f: FinancialField)
  {
    Contains(FieldName(f), "Date") || Contains(FieldName(f), "Id")
  }

  /** The keys that ProjectFinancials declares as strings. */
  predicate IsTextField(f: FinancialField)
  {
    !(f == Area || f == CostPerMeterStudio || f == CostPerMeterArch)
  }

  /** A name with no capital D and no capital I mentions neither "Date"
      nor "Id". */
  lemma NoDateNoId(name: string)
    requires 'D' !in name && 'I' !in name
    ensures !Contains(name, "Date") && !Contains(name, "Id")
  {
    NoFirstChar(name, "Date");
    NoFirstChar(name, "Id");
  }

  /** A name ending in `tail` mentions `tail`. */
  lemma EndsWith(name: string, tail: string)
    requires |tail| <= |name| && name[|name| - |tail|..] == tail
    ensures Contains(name, tail)
  {
    assert OccursAt(name, tail, |name| - |tail|);
    ContainsIff(name, tail);
  }

  /** The name test picks out exactly the string-typed keys, so the handler
      never puts a number where a string belongs, or the reverse. */
  lemma RawStringIffTextField(f: FinancialField)
    ensures StoresRawString(f) <==> IsTextField(f)
  {
    var name := FieldName(f);
    if IsTextField(f) {
      if f == PrepaymentDate || f == PaymentDate {
        EndsWith(name, "Date");
      } else {
        EndsWith(name, "Id");
      }
    } else {
      NoDateNoId(name);
    }
  }

  /** A stored value of one key. */
  datatype FieldValue = Number(x: real) | Str(s: string) | Unset

  function GetField(f: ProjectFinancials, field: FinancialField): FieldValue
  {
    match field
    case Area => Number(f.area)
    case CostPerMeterStudio => Number(f.costPerMeterStudio)
    case CostPerMeterArch => Number(f.costPerMeterArch)
    case PrepaymentDate => Str(f.prepaymentDate)
    case PaymentDate => Str(f.paymentDate)
    case PrepaymentArchitectId =>
      if f.prepaymentArchitectId.Some? then Str(f.prepaymentArchitectId.value) else Unset
    case PaymentArchitectId =>
      if f.paymentArchitectId.Some? then Str(f.paymentArchitectId.value) else Unset
  }

  /** `{ ...f, [field]: v }` for a value of the key's own type. */
  function SetField(f: ProjectFinancials, field: FinancialField, v: FieldValue): (r: ProjectFinancials)
    requires IsTextField(field) ==> v.Str?
    requires !IsTextField(field) ==> v.Number?
    ensures GetField(r, field) == v
    ensures forall g :: g != field ==> GetField(r, g) == GetField(f, g)
  {
    match field
    case Area => f.(area := v.x)
    case CostPerMeterStudio => f.(costPerMeterStudio := v.x)
    case CostPerMeterArch => f.(costPerMeterArch := v.x)
    case PrepaymentDate => f.(prepaymentDate := v.s)
    case PaymentDate => f.(paymentDate := v.s)
    case PrepaymentArchitectId => f.(prepaymentArchitectId := Some(v.s))
    case PaymentArchitectId => f.(paymentArchitectId := Some(v.s))
  }

  /** `parseFloat(value) || 0`: `parsed` is what parseFloat makes of the
      input, None when it is NaN. */
  function NumberOf(parsed: Option<real>): real
  {
    if parsed.Some? && parsed.value != 0.0 then parsed.value else 0.0
  }

  /** handleFinancialChange: the project with one financials key rewritten. */
  function HandleFinancialChange(p: Project, field: FinancialField, value: string, parsed: Option<real>): (r: Project)
    ensures r == p.(financials := r.financials)
    ensures StoresRawString(field) ==> GetField(r.financials, field) == Str(value)
    ensures !StoresRawString(field) ==> GetField(r.financials, field) == Number(parsed.GetOr(0.0))
    ensures forall g :: g != field ==> GetField(r.financials, g) == GetField(p.financials, g)
  {
    RawStringIffTextField(field);
    var stored := if StoresRawString(field) then Str(value) else Number(NumberOf(parsed));
    p.(financials := SetField(p.financials, field, stored))
  }

  /** A second rewrite of the same key supersedes the first. */
  lemma FinancialChangeLastWins(p: Project, field: FinancialField, v1: string, n1: Option<real>, v2: string, n2: Option<real>)
    ensures HandleFinancialChange(HandleFinancialChange(p, field, v1, n1), field, v2, n2)
         == HandleFinancialChange(p, field, v2, n2)
  {
    var q := HandleFinancialChange(p, field, v1, n1);
    var a := HandleFinancialChange(q, field, v2, n2);
    var b := HandleFinancialChange(p, field, v2, n2);
    GetFieldExtensional(a.financials, b.financials);
  }

  /** Financial records agreeing on every key are equal. */
  lemma GetFieldExtensional(f: ProjectFinancials, g: ProjectFinancials)
    requires forall k :: GetField(f, k) == GetField(g, k)
    ensures f == g
  {
    assert GetField(f, Area) == GetField(g, Area);
    assert GetField(f, CostPerMeterStudio) == GetField(g, CostPerMeterStudio);
    assert GetField(f, CostPerMeterArch) == GetField(g, CostPerMeterArch);
    assert GetField(f, PrepaymentDate) == GetField(g, PrepaymentDate);
    assert GetField(f, PaymentDate) == GetField(g, PaymentDate);
    assert GetField(f, PrepaymentArchitectId) == GetField(g, PrepaymentArchitectId);
    assert GetField(f, PaymentArchitectId) == GetField(g, PaymentArchitectId);
  }

  /** The options of both payee selectors. */
  function PayeeChoices(users: seq<User>): (r: seq<User>)
    ensures forall u :: u in r <==> u in users && u.role == Architect
  {
    UsersWithRole(users, Architect)
  }

  const NoPaymentDetails: string := "Реквизиты не заполнены"

  /** What one card of the table shows. */
  datatype FinanceCard = FinanceCard(
    number: int,
    architectName: string,
    architectPayment: string,
    split: ProjectChecks.Split)

  /** `mainArchitect?.paymentDetails || 'Реквизиты не заполнены'`. */
  function PaymentText(users: seq<User>, architectId: string): (text: string)
    ensures text != ""
    ensures text == NoPaymentDetails
            || exists u :: u in users && u.id == architectId && u.paymentDetails == Some(text)
    ensures var a := FindUser(users, architectId);
            a.Some? && a.value.paymentDetails.Some? && a.value.paymentDetails.value != ""
            ==> text == a.value.paymentDetails.value
    ensures var a := FindUser(users, architectId);
            !(a.Some? && a.value.paymentDetails.Some? && a.value.paymentDetails.value != "")
            ==> text == NoPaymentDetails
  {
    var a := FindUser(users, architectId);
    if a.Some? && a.value.paymentDetails.Some? && a.value.paymentDetails.value != "" then
      a.value.paymentDetails.value
    else NoPaymentDetails
  }

  function FinanceCardOf(users: seq<User>, idx: int, p: Project): (t: FinanceCard)
    ensures t.number == ProjectChecks.DefaultStartIndex + idx
    ensures t.architectName != "" && t.architectPayment != ""
    ensures t.split.prepayment + t.split.balanceStudio == t.split.totalStudio
    ensures t.split.balanceArch + t.split.prepayment == t.split.totalArch
  {
    FinanceCard(
      ProjectChecks.DefaultStartIndex + idx,
      DisplayName(users, p.architectId, ProjectChecks.Unassigned),
      PaymentText(users, p.architectId),
      ProjectChecks.FinancialSplit(p.financials))
  }

  /** The table and the admin's checks page agree card for card: same
      number, same architect name, same totals, prepayment and balances. */
  lemma TableMatchesChecks(users: seq<User>, idx: int, p: Project)
    ensures var t := FinanceCardOf(users, idx, p);
            var c := ProjectChecks.CheckCardOf(users, Admin, ProjectChecks.DefaultStartIndex, idx, p);
            && t.number == c.number == 150 + idx
            && t.architectName == c.architectName
            && Some(t.split.totalStudio) == c.totalStudio
            && Some(t.split.totalArch) == c.totalArch
            && t.split.prepayment == c.prepayment
            && Some(t.split.balanceStudio) == c.balanceStudio
            && Some(t.split.balanceArch) == c.balanceArch
  {
  }

  /** A project whose architect is missing shows both fallbacks. */
  lemma MissingArchitect(users: seq<User>, idx: int, p: Project)
    requires forall u :: u in users ==> u.id != p.architectId
    ensures FinanceCardOf(users, idx, p).architectName == ProjectChecks.Unassigned
    ensures FinanceCardOf(users, idx, p).architectPayment == NoPaymentDetails
  {
  }
}
