/** The five stored entities. Each has an optional document id, which is
    absent until the store has assigned one. The joined `treatment` and
    `category` fields are filled in locally and never stored; they are not
    part of this model. */
module Models {
  import opened Wrappers
  import opened Dates

  /** Swift's `Int` division, which truncates toward zero (Dafny's `/` on
      `int` is Euclidean). Division by zero traps in Swift. */
  function TruncDiv(a: int, b: int): (q: int)
    requires b != 0
    ensures a >= 0 && b > 0 ==> q == a / b
    ensures a >= 0 ==> 0 <= a - q * b < Abs(b)
    ensures a < 0 ==> -Abs(b) < a - q * b <= 0
  {
    var m := Abs(a) / Abs(b);
    QuotientBounds(Abs(a), Abs(b));
    if (a < 0) == (b < 0) then
      assert m * b == if b < 0 then -(m * Abs(b)) else m * Abs(b) by { NegMul(m, Abs(b)); }
      m
    else
      assert -m * b == if b < 0 then m * Abs(b) else -(m * Abs(b)) by { NegMul(m, Abs(b)); }
      -m
  }

  lemma QuotientBounds(n: nat, d: nat)
    requires d > 0
    ensures (n / d) * d <= n < (n / d) * d + d
  {
  }

  lemma NegMul(x: int, y: int)
    ensures (-x) * y == -(x * y) && x * (-y) == -(x * y) && (-x) * (-y) == x * y
  {
  }

  function Abs(n: int): (r: int)
    ensures r >= 0 && (r == n || r == -n)
  {
    if n < 0 then -n else n
  }

  datatype Treatment = Treatment(
    id: Option<string>,
    name: string,
    price: int,
    icon: Option<string>,
    color: string,
    order: int,
    createdAt: Instant,
    updatedAt: Instant)

  /** The convenience initialiser: no id yet, both timestamps are `now`. */
  function NewTreatment(name: string, price: int, icon: Option<string>, color: string,
                        order: int, now: Instant): (t: Treatment)
    ensures t.id.None? && t.name == name && t.price == price && t.icon == icon
    ensures t.color == color && t.order == order
    ensures t.createdAt == now && t.updatedAt == now
  {
    Treatment(None, name, price, icon, color, order, now, now)
  }

  datatype ExpenseCategory = ExpenseCategory(
    id: Option<string>,
    name: string,
    icon: Option<string>,
    order: int,
    createdAt: Instant)

  function NewCategory(name: string, icon: Option<string>, order: int, now: Instant): (c: ExpenseCategory)
    ensures c.id.None? && c.name == name && c.icon == icon && c.order == order
    ensures c.createdAt == now
  {
    ExpenseCategory(None, name, icon, order, now)
  }

  /** An expense of one category in one month; `yearMonth` is a "yyyy-MM" key. */
  datatype MonthlyExpense = MonthlyExpense(
    id: Option<string>,
    yearMonth: string,
    categoryId: string,
    amount: int,
    createdAt: Instant)

  function NewExpense(yearMonth: string, categoryId: string, amount: int, now: Instant): (e: MonthlyExpense)
    ensures e.id.None? && e.yearMonth == yearMonth && e.categoryId == categoryId
    ensures e.amount == amount && e.createdAt == now
  {
    MonthlyExpense(None, yearMonth, categoryId, amount, now)
  }

  /** How many times one treatment was performed on one day, and for how much
      in total. */
  datatype DailyRecord = DailyRecord(
    id: Option<string>,
    date: Instant,
    treatmentId: string,
    count: int,
    totalAmount: int,
    createdAt: Instant)
  {
    /** The price of one treatment: the integer quotient of the total by the
        count, and 0 when there is no positive count to divide by. */
    function UnitPrice(): (u: int)
      ensures count <= 0 ==> u == 0
      ensures count > 0 && totalAmount >= 0 ==> u * count <= totalAmount < (u + 1) * count
      ensures count > 0 && totalAmount < 0 ==> (u - 1) * count < totalAmount <= u * count
    {
      if count <= 0 then 0
      else
        var u := TruncDiv(totalAmount, count);
        assert (u + 1) * count == u * count + count;
        assert (u - 1) * count == u * count - count;
        u
    }
  }

  /** The convenience initialiser: the date is truncated to the start of its
      day, the other fields are stored as given. */
  function NewRecord(date: Instant, treatmentId: string, count: int, totalAmount: int,
                     now: Instant): (r: DailyRecord)
    ensures r.id.None? && SameDay(r.date, date) && r.date == StartOfDay(r.date)
    ensures r.treatmentId == treatmentId && r.count == count && r.totalAmount == totalAmount
    ensures r.createdAt == now
  {
    StartOfDayIdempotent(date);
    DailyRecord(None, StartOfDay(date), treatmentId, count, totalAmount, now)
  }

  /** A signed correction to one day's revenue: negative for a discount,
      positive for a tip or surcharge. */
  datatype DailyAdjustment = DailyAdjustment(
    id: Option<string>,
    date: Instant,
    amount: int,
    reason: Option<string>,
    createdAt: Instant)
  {
    predicate IsDiscount()
    {
      amount < 0
    }

    /** An addition is never also a discount; a zero amount is neither. */
    predicate IsAddition()
      ensures IsAddition() ==> !IsDiscount()
      ensures amount == 0 ==> !IsAddition() && !IsDiscount()
    {
      amount > 0
    }

    function AbsoluteAmount(): (a: int)
      ensures a >= 0 && (a == amount || a == -amount)
      ensures IsDiscount() ==> amount == -a
      ensures !IsDiscount() ==> amount == a
    {
      if amount < 0 then -amount else amount
    }

    /** The label shown for the adjustment: "할인" (discount) exactly for a
        discount and "추가금액" (surcharge) otherwise, so a zero amount is
        labelled as a surcharge. */
    function TypeDescription(): (s: string)
      ensures s == "할인" <==> IsDiscount()
      ensures s == "추가금액" <==> !IsDiscount()
      ensures amount == 0 ==> s == "추가금액"
    {
      if IsDiscount() then "할인" else "추가금액"
    }
  }

  /** The convenience initialiser: the date is truncated to the start of its
      day, amount and reason are stored as given. */
  function NewAdjustment(date: Instant, amount: int, reason: Option<string>, now: Instant): (a: DailyAdjustment)
    ensures a.id.None? && SameDay(a.date, date) && a.date == StartOfDay(a.date)
    ensures a.amount == amount && a.reason == reason && a.createdAt == now
  {
    StartOfDayIdempotent(date);
    DailyAdjustment(None, StartOfDay(date), amount, reason, now)
  }
}
