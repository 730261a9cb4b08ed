/** The "Add Expense" form: a group's members, the selected members and the split
    rows kept beside them, the split preview, the split validation and the submit
    checks that decide whether an expense is sent. Amounts are exact reals. */
module CreateExpensePage {
  import opened Common
  import opened ApiTypes
  import ExpenseService
  import GroupService

  datatype Member = Member(id: Key, name: string)

  /** One row of `splits`: a member, and the `amount` or `percentage` field the
      split type gives it (`None` where the row has no such field). */
  datatype SplitRow = SplitRow(userId: Key, userName: string, amount: Option<real>, percentage: Option<real>)

  datatype SplitField = AmountField | PercentageField

  /** The total-amount text: empty, text `parseFloat` cannot read, or a number. */
  datatype AmountText = Blank | Unreadable | Number(x: real)

  /** `parseFloat(text)`; `None` is `NaN`. */
  function ParseFloat(t: AmountText): (r: Option<real>)
    ensures r.Some? <==> t.Number?
  {
    match t
    case Number(x) => Some(x)
    case _ => None
  }

  /** `parseFloat(formData.totalAmount) || 0`. */
  function TotalOrZero(t: AmountText): real
  {
    OrZero(ParseFloat(t))
  }

  function MemberIds(members: seq<Member>): (ids: seq<Key>)
    ensures |ids| == |members|
    ensures forall i :: 0 <= i < |members| ==> ids[i] == members[i].id
  {
    seq(|members|, i requires 0 <= i < |members| => members[i].id)
  }

  function RowIds(rows: seq<SplitRow>): (ids: seq<Key>)
    ensures |ids| == |rows|
    ensures forall i :: 0 <= i < |rows| ==> ids[i] == rows[i].userId
  {
    seq(|rows|, i requires 0 <= i < |rows| => rows[i].userId)
  }

  /** A row carries exactly the field its split type uses. */
  predicate ShapedFor(row: SplitRow, t: SplitType)
  {
    match t
    case Equal => row.amount.None? && row.percentage.None?
    case Exact => row.amount.Some? && row.percentage.None?
    case Percentage => row.percentage.Some? && row.amount.None?
  }

  /** A fresh row for a member: no field for EQUAL, a zero field otherwise. */
  function BlankRow(m: Member, t: SplitType): (row: SplitRow)
    ensures row.userId == m.id && row.userName == m.name
    ensures ShapedFor(row, t)
    ensures OrZero(row.amount) == 0.0 && OrZero(row.percentage) == 0.0
  {
    match t
    case Equal => SplitRow(m.id, m.name, None, None)
    case Exact => SplitRow(m.id, m.name, Some(0.0), None)
    case Percentage => SplitRow(m.id, m.name, None, Some(0.0))
  }

  /** `initializeSplits(members, splitType)`: one blank row per member, in member order. */
  function InitialSplits(members: seq<Member>, t: SplitType): (rows: seq<SplitRow>)
    ensures RowIds(rows) == MemberIds(members)
    ensures forall i :: 0 <= i < |rows| ==>
      rows[i].userName == members[i].name && ShapedFor(rows[i], t)
      && OrZero(rows[i].amount) == 0.0 && OrZero(rows[i].percentage) == 0.0
  {
    seq(|members|, i requires 0 <= i < |members| => BlankRow(members[i], t))
  }

  /** `splits.filter(s => s.userId !== id)`. */
  function RemoveRows(rows: seq<SplitRow>, id: Key): (r: seq<SplitRow>)
    ensures RowIds(r) == Without(RowIds(rows), id)
    ensures forall row :: multiset(r)[row] == if row.userId == id then 0 else multiset(rows)[row]
  {
    if rows == [] then []
    else
      var init, last := rows[..|rows| - 1], rows[|rows| - 1];
      assert rows == init + [last];
      assert RowIds(rows) == RowIds(init) + [last.userId];
      var rest := RemoveRows(init, id);
      if last.userId == id then rest
      else
        assert RowIds(rest + [last]) == RowIds(rest) + [last.userId];
        rest + [last]
  }

  /** `group.members.find(m => m.id === id)`: the first member with the id. */
  function FindMember(members: seq<Member>, id: Key): (m: Member)
    requires id in MemberIds(members)
    ensures m.id == id
    ensures exists k :: 0 <= k < |members| && members[k] == m && forall j :: 0 <= j < k ==> members[j].id != id
  {
    if members[0].id == id then
      assert members[0] == members[0];
      members[0]
    else
      assert MemberIds(members[1..]) == MemberIds(members)[1..];
      var m := FindMember(members[1..], id);
      ghost var k :| 0 <= k < |members[1..]| && members[1..][k] == m
                     && forall j :: 0 <= j < k ==> members[1..][j].id != id;
      assert members[k + 1] == m;
      m
  }

  /** `handleMemberToggle` on `splits`: whether the member is selected decides
      between dropping its rows and appending a blank row for the split type. */
  function ToggleRows(rows: seq<SplitRow>, selected: seq<Key>, member: Member, t: SplitType): (r: seq<SplitRow>)
    ensures member.id in selected ==> r == RemoveRows(rows, member.id)
    ensures member.id !in selected ==> r == rows + [BlankRow(member, t)]
  {
    if member.id in selected then RemoveRows(rows, member.id) else rows + [BlankRow(member, t)]
  }

  /** Toggling a member keeps the rows' ids equal to the selection when they were. */
  lemma ToggleKeepsRowsInStep(rows: seq<SplitRow>, selected: seq<Key>, member: Member, t: SplitType)
    requires RowIds(rows) == selected
    ensures RowIds(ToggleRows(rows, selected, member, t)) == Toggle(selected, member.id)
  {
    if member.id !in selected {
      assert RowIds(rows + [BlankRow(member, t)]) == RowIds(rows) + [member.id];
    }
  }

  /** Changing the split type rebuilds a row for every group member, whatever is
      selected: once any member has been deselected, the rebuilt rows hold that
      member and so no longer match the selection. */
  lemma SplitTypeChangeIgnoresSelection(members: seq<Member>, id: Key, t: SplitType)
    requires id in MemberIds(members)
    ensures id in RowIds(InitialSplits(members, t))
    ensures RowIds(InitialSplits(members, t)) != Toggle(MemberIds(members), id)
  {
  }

  /** In general, the rows rebuilt by a split-type change match a selection
      exactly when that selection is the whole group. */
  lemma RebuiltRowsMatchOnlyFullSelection(members: seq<Member>, selected: seq<Key>, t: SplitType)
    ensures RowIds(InitialSplits(members, t)) == selected <==> selected == MemberIds(members)
  {
  }

  function FieldValue(row: SplitRow, f: SplitField): Option<real>
  {
    match f
    case AmountField => row.amount
    case PercentageField => row.percentage
  }

  /** `{ ...row, [field]: value }`. */
  function WithField(row: SplitRow, f: SplitField, value: real): SplitRow
  {
    match f
    case AmountField => row.(amount := Some(value))
    case PercentageField => row.(percentage := Some(value))
  }

  /** `handleSplitChange`: every row of `userId` gets `parseFloat(value) || 0` in
      the named field; `parsed` is `parseFloat(value)`, `None` for `NaN`. */
  function SetSplitField(rows: seq<SplitRow>, userId: Key, f: SplitField, parsed: Option<real>): (r: seq<SplitRow>)
    ensures RowIds(r) == RowIds(rows)
    ensures forall i :: 0 <= i < |rows| && rows[i].userId != userId ==> r[i] == rows[i]
    ensures forall i :: 0 <= i < |rows| && rows[i].userId == userId ==>
      && r[i].userName == rows[i].userName
      && FieldValue(r[i], f) == Some(OrZero(parsed))
      && (f == AmountField ==> r[i].percentage == rows[i].percentage)
      && (f == PercentageField ==> r[i].amount == rows[i].amount)
  {
    seq(|rows|, i requires 0 <= i < |rows| =>
      if rows[i].userId == userId then WithField(rows[i], f, OrZero(parsed)) else rows[i])
  }

  /** `(totalAmount * s.percentage) / 100` for a row, `None` when the row has no
      percentage; a missing percentage and a zero one both count as 0 in a sum. */
  function PercentShare(total: real, pct: Option<real>): (r: Option<real>)
    ensures r.Some? <==> pct.Some?
    ensures OrZero(r) == PercentOf(total, OrZero(pct))
  {
    match pct
    case Some(x) => Some(PercentOf(total, x))
    case None => None
  }

  /** `(total * x) / 100`: `x` percent of `total`. */
  function PercentOf(total: real, x: real): real
  {
    total * x / 100.0
  }

  /** Taking a percentage of every term takes it of the sum. */
  lemma {:induction false} SumPercentOf(xs: seq<real>, ys: seq<real>, total: real)
    requires |ys| == |xs|
    requires forall i :: 0 <= i < |xs| ==> ys[i] == PercentOf(total, xs[i])
    ensures Sum(ys) == PercentOf(total, Sum(xs))
  {
    if xs != [] {
      SumPercentOf(xs[..|xs| - 1], ys[..|ys| - 1], total);
    }
  }

  /** The PERCENTAGE case of `calculateSplitPreview`: every row's share of the total. */
  function PercentagePreview(rows: seq<SplitRow>, total: real): (p: seq<Option<real>>)
    ensures |p| == |rows|
    ensures forall i :: 0 <= i < |rows| ==> p[i] == PercentShare(total, rows[i].percentage)
  {
    seq(|rows|, i requires 0 <= i < |rows| => PercentShare(total, rows[i].percentage))
  }

  /** `calculateSplitPreview`: each row's `calculatedAmount`, `None` where it is
      not a finite number (`total / 0`, or a row without a percentage). */
  function Preview(rows: seq<SplitRow>, t: SplitType, total: real, selectedCount: nat): (p: seq<Option<real>>)
    ensures |p| == |rows|
  {
    match t
    case Equal =>
      seq(|rows|, i => if selectedCount == 0 then None else Some(total / selectedCount as real))
    case Exact =>
      seq(|rows|, i requires 0 <= i < |rows| => rows[i].amount)
    case Percentage =>
      PercentagePreview(rows, total)
  }

  /** What the preview shows for each row: `s.calculatedAmount || 0`. */
  function Shown(p: seq<Option<real>>): (xs: seq<real>)
    ensures |xs| == |p|
    ensures forall i :: 0 <= i < |p| ==> xs[i] == OrZero(p[i])
  {
    seq(|p|, i requires 0 <= i < |p| => OrZero(p[i]))
  }

  /** The preview's "Total": `preview.reduce((sum, s) => sum + (s.calculatedAmount || 0), 0)`. */
  function PreviewTotal(p: seq<Option<real>>): (t: real)
    ensures (forall i :: 0 <= i < |p| ==> OrZero(p[i]) >= 0.0) ==> t >= 0.0
    ensures (forall i :: 0 <= i < |p| ==> OrZero(p[i]) == 0.0) ==> t == 0.0
  {
    ShownTotalBounds(p);
    Sum(Shown(p))
  }

  lemma ShownTotalBounds(p: seq<Option<real>>)
    ensures (forall i :: 0 <= i < |p| ==> OrZero(p[i]) >= 0.0) ==> Sum(Shown(p)) >= 0.0
    ensures (forall i :: 0 <= i < |p| ==> OrZero(p[i]) == 0.0) ==> Sum(Shown(p)) == 0.0
  {
    if forall i :: 0 <= i < |p| ==> OrZero(p[i]) >= 0.0 {
      SumNonNegativeZero(Shown(p));
    }
  }

  /** Each row's `s[field] || 0`. */
  function FieldColumn(rows: seq<SplitRow>, f: SplitField): (xs: seq<real>)
    ensures |xs| == |rows|
    ensures forall i :: 0 <= i < |rows| ==> xs[i] == OrZero(FieldValue(rows[i], f))
  {
    seq(|rows|, i requires 0 <= i < |rows| => OrZero(FieldValue(rows[i], f)))
  }

  /** `splits.reduce((acc, s) => acc + (s[field] || 0), 0)`. */
  function FieldSum(rows: seq<SplitRow>, f: SplitField): real
  {
    Sum(FieldColumn(rows, f))
  }

  /** With as many rows as selected members, the EQUAL preview adds up to the total. */
  lemma EqualPreviewConservesTotal(rows: seq<SplitRow>, total: real, selectedCount: nat)
    requires |rows| == selectedCount > 0
    ensures PreviewTotal(Preview(rows, Equal, total, selectedCount)) == total
  {
    var c := total / selectedCount as real;
    var p := Preview(rows, Equal, total, selectedCount);
    assert Shown(p) == seq(|rows|, i => c);
    SumConstant(|rows|, c);
  }

  /** The PERCENTAGE preview adds up to `total` times the percentages' sum over
      100, a missing percentage counting as zero. */
  lemma PercentagePreviewTotal(rows: seq<SplitRow>, total: real, selectedCount: nat)
    ensures PreviewTotal(Preview(rows, Percentage, total, selectedCount))
      == PercentOf(total, FieldSum(rows, PercentageField))
  {
    var p := PercentagePreview(rows, total);
    forall i | 0 <= i < |rows| ensures Shown(p)[i] == PercentOf(total, FieldColumn(rows, PercentageField)[i]) {
      assert FieldValue(rows[i], PercentageField) == rows[i].percentage;
    }
    SumPercentOf(FieldColumn(rows, PercentageField), Shown(p), total);
  }

  /** Percentages that sum to exactly 100 make the preview add up to the total. */
  lemma PercentagePreviewConservesTotal(rows: seq<SplitRow>, total: real, selectedCount: nat)
    requires FieldSum(rows, PercentageField) == 100.0
    ensures PreviewTotal(Preview(rows, Percentage, total, selectedCount)) == total
  {
    PercentagePreviewTotal(rows, total, selectedCount);
  }

  /** The EXACT preview adds up to the very sum the validation compares with the total. */
  lemma ExactPreviewTotal(rows: seq<SplitRow>, total: real, selectedCount: nat)
    ensures PreviewTotal(Preview(rows, Exact, total, selectedCount)) == FieldSum(rows, AmountField)
  {
    var p := Preview(rows, Exact, total, selectedCount);
    assert Shown(p) == FieldColumn(rows, AmountField);
  }

  const Tolerance: real := 0.01

  /** `!(Math.abs(a - b) > 0.01)`: the boundary itself is accepted. */
  predicate WithinTolerance(a: real, b: real)
  {
    -Tolerance <= a - b <= Tolerance
  }

  /** The two failures of `validateSplits`; their messages print the sums with two
      decimals. */
  datatype SplitError = AmountsDoNotMatch(sum: real, total: real) | PercentagesDoNotSum(sum: real)

  /** `validateSplits`: EXACT amounts must sum to the total and PERCENTAGE
      percentages to 100, each within 0.01, missing fields counting as 0;
      EQUAL always passes. */
  function ValidateSplits(rows: seq<SplitRow>, t: SplitType, totalText: AmountText): (r: Option<SplitError>)
    ensures t == Equal ==> r.None?
    ensures t == Exact ==>
      (r.None? <==> WithinTolerance(FieldSum(rows, AmountField), TotalOrZero(totalText)))
    ensures t == Percentage ==>
      (r.None? <==> WithinTolerance(FieldSum(rows, PercentageField), 100.0))
  {
    var total := TotalOrZero(totalText);
    match t
    case Exact =>
      var sum := FieldSum(rows, AmountField);
      var gap := if sum >= total then sum - total else total - sum;
      if gap > Tolerance then Some(AmountsDoNotMatch(sum, total)) else None
    case Percentage =>
      var sum := FieldSum(rows, PercentageField);
      var gap := if sum >= 100.0 then sum - 100.0 else 100.0 - sum;
      if gap > Tolerance then Some(PercentagesDoNotSum(sum)) else None
    case Equal => None
  }

  /** The tolerance is inclusive: a cent over the total passes, two cents fail;
      percentages summing to 100.01 pass. */
  lemma ToleranceBoundary()
    ensures ValidateSplits([SplitRow(Num(1), "a", Some(10.01), None)], Exact, Number(10.0)).None?
    ensures ValidateSplits([SplitRow(Num(1), "a", Some(10.02), None)], Exact, Number(10.0)).Some?
    ensures ValidateSplits([SplitRow(Num(1), "a", None, Some(100.01))], Percentage, Blank).None?
  {
    assert FieldSum([SplitRow(Num(1), "a", Some(10.01), None)], AmountField) == 10.01 by {
      assert FieldColumn([SplitRow(Num(1), "a", Some(10.01), None)], AmountField) == [10.01];
      assert Sum([10.01]) == Sum([]) + 10.01;
    }
    assert FieldSum([SplitRow(Num(1), "a", Some(10.02), None)], AmountField) == 10.02 by {
      assert FieldColumn([SplitRow(Num(1), "a", Some(10.02), None)], AmountField) == [10.02];
      assert Sum([10.02]) == Sum([]) + 10.02;
    }
    assert FieldSum([SplitRow(Num(1), "a", None, Some(100.01))], PercentageField) == 100.01 by {
      assert FieldColumn([SplitRow(Num(1), "a", None, Some(100.01))], PercentageField) == [100.01];
      assert Sum([100.01]) == Sum([]) + 100.01;
    }
  }

  /** An EXACT split that validates has a preview total within 0.01 of the total. */
  lemma ValidExactPreviewNearTotal(rows: seq<SplitRow>, totalText: AmountText, selectedCount: nat)
    requires ValidateSplits(rows, Exact, totalText).None?
    ensures WithinTolerance(PreviewTotal(Preview(rows, Exact, TotalOrZero(totalText), selectedCount)),
                            TotalOrZero(totalText))
  {
    ExactPreviewTotal(rows, TotalOrZero(totalText), selectedCount);
  }

  /** A PERCENTAGE split that validates has a preview total within a
      ten-thousandth of a non-negative total. */
  lemma ValidPercentagePreviewNearTotal(rows: seq<SplitRow>, totalText: AmountText, selectedCount: nat)
    requires ValidateSplits(rows, Percentage, totalText).None?
    requires TotalOrZero(totalText) >= 0.0
    ensures var total := TotalOrZero(totalText);
      var shown := PreviewTotal(Preview(rows, Percentage, total, selectedCount));
      total - total / 10000.0 <= shown <= total + total / 10000.0
  {
    var total := TotalOrZero(totalText);
    PercentagePreviewTotal(rows, total, selectedCount);
    var d := FieldSum(rows, PercentageField) - 100.0;
    assert PercentOf(total, d + 100.0) - total == total * d / 100.0;
    MulNonNegative(total, 0.01 - d);
    MulNonNegative(total, d + 0.01);
  }

  lemma MulNonNegative(a: real, b: real)
    requires a >= 0.0 && b >= 0.0
    ensures a * b >= 0.0
  {
  }

  /** The check of a total amount: `!text || parseFloat(text) <= 0`. Unreadable
      text is `NaN`, and `NaN <= 0` is false, so it is not rejected here. */
  predicate AmountRejected(t: AmountText)
  {
    t.Blank? || (t.Number? && t.x <= 0.0)
  }

  datatype SubmitError =
    | DescriptionRequired
    | AmountNotPositive
    | NoMemberSelected
    | InvalidSplits(e: SplitError)

  /** The text `handleSubmit` shows for a failed check. */
  function SubmitMessage(e: SubmitError): string
    requires !e.InvalidSplits?
  {
    match e
    case DescriptionRequired => "Description is required"
    case AmountNotPositive => "Amount must be greater than 0"
    case NoMemberSelected => "Select at least one member"
  }

  /** The checks of `handleSubmit`, first failure wins: a blank description, a
      total that is not positive, an empty selection, then the split validation. */
  function SubmitCheck(description: string, totalText: AmountText, selected: seq<Key>,
                       rows: seq<SplitRow>, t: SplitType): (r: Option<SubmitError>)
    ensures r == Some(DescriptionRequired) <==> AllWhitespace(description)
    ensures r == Some(AmountNotPositive) <==> !AllWhitespace(description) && AmountRejected(totalText)
    ensures r == Some(NoMemberSelected) <==>
      !AllWhitespace(description) && !AmountRejected(totalText) && selected == []
    ensures (r.Some? && r.value.InvalidSplits?) <==>
      !AllWhitespace(description) && !AmountRejected(totalText) && selected != []
      && ValidateSplits(rows, t, totalText).Some?
    ensures r.None? <==>
      !AllWhitespace(description) && !AmountRejected(totalText) && selected != []
      && ValidateSplits(rows, t, totalText).None?
  {
    TrimEmptyIffAllWhitespace(description);
    if Trim(description) == "" then Some(DescriptionRequired)
    else if totalText.Blank? || (ParseFloat(totalText).Some? && ParseFloat(totalText).value <= 0.0)
    then Some(AmountNotPositive)
    else if |selected| == 0 then Some(NoMemberSelected)
    else match ValidateSplits(rows, t, totalText)
      case Some(e) => Some(InvalidSplits(e))
      case None => None
  }

  /** One payload entry: `userId`, plus `amount` for EXACT or `percentage` for PERCENTAGE. */
  function EntryFor(row: SplitRow, t: SplitType): SplitEntry
  {
    match t
    case Equal => SplitEntry(row.userId, None, None)
    case Exact => SplitEntry(row.userId, row.amount, None)
    case Percentage => SplitEntry(row.userId, None, row.percentage)
  }

  /** The expense `handleSubmit` sends: the description as typed, the parsed total,
      the payer, the split type and one entry per split row, in row order. */
  function BuildExpense(description: string, totalText: AmountText, paidBy: Option<Key>,
                        t: SplitType, rows: seq<SplitRow>): (e: ExpenseData)
    ensures e.description == description && e.totalAmount == ParseFloat(totalText)
    ensures e.paidBy == paidBy && e.splitType == t
    ensures |e.splits| == |rows|
    ensures forall i :: 0 <= i < |rows| ==> e.splits[i].userId == rows[i].userId
    ensures forall i :: 0 <= i < |rows| ==>
      && e.splits[i].amount == (if t == Exact then rows[i].amount else None)
      && e.splits[i].percentage == (if t == Percentage then rows[i].percentage else None)
  {
    ExpenseData(description, ParseFloat(totalText), paidBy, t,
      seq(|rows|, i requires 0 <= i < |rows| => EntryFor(rows[i], t)))
  }

  /** Text that is not a number gets past the form's amount check, but the payload
      then carries no total and the expense service rejects it as missing. */
  lemma UnreadableTotalPassesFormButNotService(description: string, selected: seq<Key>,
                                               rows: seq<SplitRow>, paidBy: Option<Key>, groupId: Key)
    requires !AllWhitespace(description) && selected != []
    requires KeyTruthy(groupId)
    ensures SubmitCheck(description, Unreadable, selected, rows, Equal).None?
    ensures ExpenseService.Check(Some(groupId), BuildExpense(description, Unreadable, paidBy, Equal, rows))
      == Some(ExpenseService.MissingFields)
  {
  }

  /** Once the form's checks pass, the service sends the expense exactly when the
      group id, a numeric total and a payer are present. */
  lemma PassedFormIsSentWhen(groupId: Key, description: string, totalText: AmountText, paidBy: Option<Key>,
                             selected: seq<Key>, rows: seq<SplitRow>, t: SplitType)
    requires SubmitCheck(description, totalText, selected, rows, t).None?
    ensures ExpenseService.Check(Some(groupId), BuildExpense(description, totalText, paidBy, t, rows)).None?
      <==> KeyTruthy(groupId) && totalText.Number? && Present(paidBy)
  {
    assert description != "";
  }

  /** The banner for a failed submit check: the mismatched sums of a split,
      or the check's message. */
  function CheckBanner(e: SubmitError): (b: Banner)
    ensures e.InvalidSplits? ==> b == SplitMismatch(e.e)
    ensures !e.InvalidSplits? ==> b == Message(SubmitMessage(e))
  {
    if e.InvalidSplits? then SplitMismatch(e.e) else Message(SubmitMessage(e))
  }

  /** What one submission leads to: the request sent, the navigation, the banner. */
  datatype SubmitResult = SubmitResult(sent: Option<Request>, navigateTo: Option<Route>, banner: Banner)

  /** `handleSubmit` on a form state and the server's reply. A failed check shows
      its banner and sends nothing. Otherwise the expense is sent exactly when
      the group id, a numeric total and a payer are present; only an answered
      request navigates back to the group, and every rejection shows the
      page's own fallback text instead of the service's. */
  function SubmitOutcome(groupId: Key, description: string, totalText: AmountText, paidBy: Option<Key>,
                         t: SplitType, selected: seq<Key>, rows: seq<SplitRow>,
                         reply: Reply<ExpenseData>): (r: SubmitResult)
    ensures var check := SubmitCheck(description, totalText, selected, rows, t);
      check.Some? ==> r.sent.None? && r.navigateTo.None? && r.banner == CheckBanner(check.value)
    ensures SubmitCheck(description, totalText, selected, rows, t).None? ==>
      && (r.sent.Some? <==> KeyTruthy(groupId) && totalText.Number? && Present(paidBy))
      && (r.sent.Some? ==> r.sent.value == PostExpense(groupId, BuildExpense(description, totalText, paidBy, t, rows)))
      && (r.navigateTo.Some? <==> r.sent.Some? && reply.Answered?)
      && (r.navigateTo.Some? ==> r.navigateTo.value == GroupRoute(groupId) && r.banner == NoBanner)
      && (r.navigateTo.None? ==> r.banner == Message(ExpenseService.CreateFallback))
  {
    match SubmitCheck(description, totalText, selected, rows, t)
    case Some(e) => SubmitResult(None, None, CheckBanner(e))
    case None =>
      var expense := BuildExpense(description, totalText, paidBy, t, rows);
      PassedFormIsSentWhen(groupId, description, totalText, paidBy, selected, rows, t);
      var call := ExpenseService.CreateExpense(Some(groupId), expense, reply);
      match call.outcome
      case Resolved(_) => SubmitResult(call.sent, Some(GroupRoute(groupId)), NoBanner)
      case Rejected(reason) =>
        SubmitResult(call.sent, None, Message(PageErrorText(ThrownString(reason), ExpenseService.CreateFallback)))
  }

  const LoadFailedMessage := "Failed to load group"

  /** A change to one field of the form, as `handleChange` receives it. */
  datatype FormChange =
    | DescriptionChange(text: string)
    | TotalAmountChange(amount: AmountText)
    | PaidByChange(payer: Key)
    | SplitTypeChange(splitType: SplitType)

  /** The error banner of the form. */
  datatype Banner = NoBanner | Message(text: string) | SplitMismatch(e: SplitError)

  class ExpenseForm {
    const groupId: Key
    var group: Option<seq<Member>>
    var description: string
    var totalAmount: AmountText
    var paidBy: Option<Key>
    var splitType: SplitType
    var splits: seq<SplitRow>
    var selectedMembers: seq<Key>
    var error: Banner
    var loading: bool
    var loadingGroup: bool

    /** The form's initial state: no group yet, an empty description and total,
        the current user as payer, EQUAL splitting. */
    constructor(groupId: Key, currentUserId: Option<Key>)
      ensures this.groupId == groupId && group.None?
      ensures description == "" && totalAmount == Blank && paidBy == currentUserId && splitType == Equal
      ensures splits == [] && selectedMembers == [] && error == NoBanner
      ensures !loading && loadingGroup
    {
      this.groupId := groupId;
      group := None;
      description, totalAmount, paidBy, splitType := "", Blank, currentUserId, Equal;
      splits, selectedMembers := [], [];
      error, loading, loadingGroup := NoBanner, false, true;
    }

    /** `fetchGroup`: on success every member is selected and has one EQUAL row,
        in member order; on failure the banner says so. Loading ends either way. */
    method FetchGroup(reply: Reply<seq<Member>>)
      modifies this
      ensures !loadingGroup
      ensures description == old(description) && totalAmount == old(totalAmount)
      ensures paidBy == old(paidBy) && splitType == old(splitType) && loading == old(loading)
      ensures KeyTruthy(groupId) && reply.Answered? ==>
        && group == Some(reply.data)
        && selectedMembers == MemberIds(reply.data)
        && splits == InitialSplits(reply.data, Equal)
        && RowIds(splits) == selectedMembers
        && error == old(error)
      ensures !(KeyTruthy(groupId) && reply.Answered?) ==>
        group == old(group) && splits == old(splits) && selectedMembers == old(selectedMembers)
        && error == Message(LoadFailedMessage)
    {
      var call := GroupService.GetGroupById(Some(groupId), reply);
      match call.outcome {
        case Resolved(members) =>
          group := Some(members);
          selectedMembers := MemberIds(members);
          splits := InitialSplits(members, Equal);
        case Rejected(_) =>
          error := Message(LoadFailedMessage);
      }
      loadingGroup := false;
    }

    /** `handleChange`: one form field takes the new value; a new split type also
        rebuilds the rows from all group members, leaving the selection as it is. */
    method HandleChange(change: FormChange)
      requires change.SplitTypeChange? ==> group.Some?
      modifies this
      ensures group == old(group) && selectedMembers == old(selectedMembers)
      ensures error == old(error) && loading == old(loading) && loadingGroup == old(loadingGroup)
      ensures match change
        case DescriptionChange(text) =>
          description == text && totalAmount == old(totalAmount) && paidBy == old(paidBy)
          && splitType == old(splitType) && splits == old(splits)
        case TotalAmountChange(amount) =>
          totalAmount == amount && description == old(description) && paidBy == old(paidBy)
          && splitType == old(splitType) && splits == old(splits)
        case PaidByChange(payer) =>
          paidBy == Some(payer) && description == old(description) && totalAmount == old(totalAmount)
          && splitType == old(splitType) && splits == old(splits)
        case SplitTypeChange(t) =>
          splitType == t && splits == InitialSplits(group.value, t)
          && description == old(description) && totalAmount == old(totalAmount) && paidBy == old(paidBy)
    {
      match change {
        case DescriptionChange(text) => description := text;
        case TotalAmountChange(amount) => totalAmount := amount;
        case PaidByChange(payer) => paidBy := Some(payer);
        case SplitTypeChange(t) =>
          splitType := t;
          splits := InitialSplits(group.value, t);
      }
    }

    /** `handleMemberToggle`: a selected member leaves both lists; another member
        joins both, with a blank row for the current split type. */
    method HandleMemberToggle(memberId: Key)
      requires group.Some? && memberId in MemberIds(group.value)
      modifies this`selectedMembers, this`splits
      ensures selectedMembers == Toggle(old(selectedMembers), memberId)
      ensures splits == ToggleRows(old(splits), old(selectedMembers), FindMember(group.value, memberId), splitType)
      ensures RowIds(old(splits)) == old(selectedMembers) ==> RowIds(splits) == selectedMembers
    {
      var member := FindMember(group.value, memberId);
      if RowIds(splits) == selectedMembers {
        ToggleKeepsRowsInStep(splits, selectedMembers, member, splitType);
      }
      splits := ToggleRows(splits, selectedMembers, member, splitType);
      selectedMembers := Toggle(selectedMembers, memberId);
    }

    /** `handleSplitChange` as the split inputs call it: the field is `amount` for
        EXACT and `percentage` otherwise; the inputs exist only when not EQUAL. */
    method HandleSplitChange(userId: Key, parsed: Option<real>)
      requires splitType != Equal
      modifies this`splits
      ensures splits == SetSplitField(old(splits),
                                      userId, if splitType == Exact then AmountField else PercentageField, parsed)
    {
      splits := SetSplitField(splits, userId, if splitType == Exact then AmountField else PercentageField, parsed);
    }

    /** The preview the form renders. */
    function CurrentPreview(): (p: seq<Option<real>>)
      reads this
      ensures |p| == |splits|
      ensures splitType == Equal && |splits| == |selectedMembers| > 0 ==>
        PreviewTotal(p) == TotalOrZero(totalAmount)
    {
      var p := Preview(splits, splitType, TotalOrZero(totalAmount), |selectedMembers|);
      if splitType == Equal && |splits| == |selectedMembers| > 0 then
        EqualPreviewConservesTotal(splits, TotalOrZero(totalAmount), |selectedMembers|);
        p
      else p
    }

    /** `handleSubmit`: the banner, the request and the navigation are those of
        `SubmitOutcome` for the form's current state, and loading ends. */
    method HandleSubmit(reply: Reply<ExpenseData>) returns (sent: Option<Request>, navigateTo: Option<Route>)
      modifies this`error, this`loading
      ensures !loading
      ensures var r := old(SubmitOutcome(groupId, description, totalAmount, paidBy, splitType,
                                         selectedMembers, splits, reply));
        sent == r.sent && navigateTo == r.navigateTo && error == r.banner
    {
      var r := SubmitOutcome(groupId, description, totalAmount, paidBy, splitType, selectedMembers, splits, reply);
      error := NoBanner;
      loading := true;
      sent, navigateTo, error := r.sent, r.navigateTo, r.banner;
      loading := false;
    }
  }
}
