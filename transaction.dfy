/** A transaction: one recorded income or expense, its JSON object encoding and
    its two display helpers. The source class has value semantics (it is copied
    into and out of the store), so it is a datatype here and each setter is an
    update function that returns the changed copy. */
module Transactions {
  import opened Json
  import opened Timestamps

  /** The kind is an `enum class` over `int`: INCOME is 0 and EXPENSE is 1, but
      decoding casts any 32-bit integer to it, so other codes can occur. */
  type TransactionType = c: int | IntMin <= c <= IntMax

  const INCOME: TransactionType := 0
  const EXPENSE: TransactionType := 1

  datatype Transaction = Transaction(
    id: string,
    kind: TransactionType,
    amount: real,
    fromAccount: string,
    toAccount: string,
    category: string,
    paymentMethod: string,
    timestamp: Timestamp)
  {
    function SetType(k: TransactionType): (r: Transaction)
      ensures r.kind == k && SameExcept(this, r, TypeField)
    {
      this.(kind := k)
    }

    function SetAmount(a: real): (r: Transaction)
      ensures r.amount == a && SameExcept(this, r, AmountField)
    {
      this.(amount := a)
    }

    function SetFromAccount(s: string): (r: Transaction)
      ensures r.fromAccount == s && SameExcept(this, r, FromAccountField)
    {
      this.(fromAccount := s)
    }

    function SetToAccount(s: string): (r: Transaction)
      ensures r.toAccount == s && SameExcept(this, r, ToAccountField)
    {
      this.(toAccount := s)
    }

    function SetCategory(s: string): (r: Transaction)
      ensures r.category == s && SameExcept(this, r, CategoryField)
    {
      this.(category := s)
    }

    function SetMethod(s: string): (r: Transaction)
      ensures r.paymentMethod == s && SameExcept(this, r, MethodField)
    {
      this.(paymentMethod := s)
    }

    function SetTimestamp(t: Timestamp): (r: Transaction)
      ensures r.timestamp == t && SameExcept(this, r, TimestampField)
    {
      this.(timestamp := t)
    }
  }

  datatype Field =
    | IdField | TypeField | AmountField | FromAccountField | ToAccountField
    | CategoryField | MethodField | TimestampField

  /** `a` and `b` agree on every field except possibly `f`. */
  predicate SameExcept(a: Transaction, b: Transaction, f: Field) {
    (f == IdField || a.id == b.id) &&
    (f == TypeField || a.kind == b.kind) &&
    (f == AmountField || a.amount == b.amount) &&
    (f == FromAccountField || a.fromAccount == b.fromAccount) &&
    (f == ToAccountField || a.toAccount == b.toAccount) &&
    (f == CategoryField || a.category == b.category) &&
    (f == MethodField || a.paymentMethod == b.paymentMethod) &&
    (f == TimestampField || a.timestamp == b.timestamp)
  }

  /** The default constructor: a fresh identifier (drawn by the caller), an
      expense of amount 0, empty texts and an invalid timestamp. */
  function DefaultTransaction(freshId: string): (r: Transaction)
    ensures r.id == freshId && r.kind == EXPENSE && r.amount == 0.0
    ensures r.fromAccount == r.toAccount == r.category == r.paymentMethod == ""
    ensures r.timestamp == Invalid
  {
    Transaction(freshId, EXPENSE, 0.0, "", "", "", "", Invalid)
  }

  /** The explicit constructor: a fresh identifier and every other field as
      passed. It is the default transaction with the seven setters applied. */
  function NewTransaction(freshId: string, kind: TransactionType, amount: real,
                          fromAccount: string, toAccount: string, category: string,
                          paymentMethod: string, timestamp: Timestamp): (r: Transaction)
    ensures r.id == freshId && r.kind == kind && r.amount == amount
    ensures r.fromAccount == fromAccount && r.toAccount == toAccount
    ensures r.category == category && r.paymentMethod == paymentMethod && r.timestamp == timestamp
    ensures r == DefaultTransaction(freshId).SetType(kind).SetAmount(amount)
                   .SetFromAccount(fromAccount).SetToAccount(toAccount).SetCategory(category)
                   .SetMethod(paymentMethod).SetTimestamp(timestamp)
  {
    Transaction(freshId, kind, amount, fromAccount, toAccount, category, paymentMethod, timestamp)
  }

  /** The keys `toJson` writes. */
  const JsonKeys: set<string> :=
    {"id", "type", "amount", "fromAccount", "toAccount", "category", "method", "timestamp"}

  /** `toJson`: one key per field; the kind is written as its integer code
      (0 for INCOME, 1 for EXPENSE) and the timestamp as ISO 8601 text. */
  function ToJson(t: Transaction): (obj: Object)
    ensures obj.Keys == JsonKeys
    ensures obj["type"] == JNumber(t.kind as real)
    ensures t.kind == INCOME ==> obj["type"] == JNumber(0.0)
    ensures t.kind == EXPENSE ==> obj["type"] == JNumber(1.0)
    ensures obj["timestamp"] == JString(FormatIso(t.timestamp))
    ensures obj["id"] == JString(t.id) && obj["amount"] == JNumber(t.amount)
    ensures obj["fromAccount"] == JString(t.fromAccount) && obj["toAccount"] == JString(t.toAccount)
    ensures obj["category"] == JString(t.category) && obj["method"] == JString(t.paymentMethod)
  {
    map[
      "id" := JString(t.id),
      "type" := JNumber(t.kind as real),
      "amount" := JNumber(t.amount),
      "fromAccount" := JString(t.fromAccount),
      "toAccount" := JString(t.toAccount),
      "category" := JString(t.category),
      "method" := JString(t.paymentMethod),
      "timestamp" := JString(FormatIso(t.timestamp))]
  }

  /** `fromJson`: start from a default transaction (whose fresh identifier is
      `freshId`) and overwrite every field with what the object holds, through
      the lenient conversions (a missing or mistyped field reads as "", 0 or an
      invalid timestamp). The identifier kept is the object's own. */
  function FromJson(obj: Object, freshId: string): (t: Transaction)
    ensures t.id == ToText(Get(obj, "id"))
    ensures "id" !in obj ==> t.id == ""
    ensures t.kind == ToInt(Get(obj, "type"))
    ensures "type" !in obj ==> t.kind == INCOME
    ensures !Get(obj, "amount").JNumber? ==> t.amount == 0.0
    ensures !Get(obj, "fromAccount").JString? ==> t.fromAccount == ""
    ensures !Get(obj, "toAccount").JString? ==> t.toAccount == ""
    ensures !Get(obj, "category").JString? ==> t.category == ""
    ensures !Get(obj, "method").JString? ==> t.paymentMethod == ""
    ensures !Get(obj, "timestamp").JString? ==> t.timestamp == Invalid
    ensures Get(obj, "amount").JNumber? ==> t.amount == Get(obj, "amount").n
    ensures Get(obj, "fromAccount").JString? ==> t.fromAccount == Get(obj, "fromAccount").s
    ensures Get(obj, "toAccount").JString? ==> t.toAccount == Get(obj, "toAccount").s
    ensures Get(obj, "category").JString? ==> t.category == Get(obj, "category").s
    ensures Get(obj, "method").JString? ==> t.paymentMethod == Get(obj, "method").s
    ensures Get(obj, "timestamp").JString? ==> t.timestamp == ParseIso(Get(obj, "timestamp").s)
  {
    var t := DefaultTransaction(freshId);
    t.(id := ToText(Get(obj, "id")),
       kind := ToInt(Get(obj, "type")),
       amount := ToReal(Get(obj, "amount")),
       fromAccount := ToText(Get(obj, "fromAccount")),
       toAccount := ToText(Get(obj, "toAccount")),
       category := ToText(Get(obj, "category")),
       paymentMethod := ToText(Get(obj, "method")),
       timestamp := ParseIso(ToText(Get(obj, "timestamp"))))
  }

  /** Decoding an encoded transaction restores every field but the timestamp,
      for every transaction; the timestamp comes back unless its year cannot be
      written in ISO 8601 form, in which case it reads back as invalid. */
  lemma {:induction false} FromJsonToJson(t: Transaction, freshId: string)
    ensures var r := FromJson(ToJson(t), freshId);
      SameExcept(t, r, TimestampField) &&
      (IsoRepresentable(t.timestamp) ==> r == t) &&
      (!IsoRepresentable(t.timestamp) ==> r.timestamp == Invalid)
  {
    ToIntOfInt(t.kind);
    if IsoRepresentable(t.timestamp) {
      ParseFormat(t.timestamp);
    }
  }

  /** `getTypeString`: "收入" (income) for INCOME and "支出" (expense) for every
      other code. */
  function TypeString(t: Transaction): (s: string)
    ensures s == "收入" <==> t.kind == INCOME
    ensures s == "支出" <==> t.kind != INCOME
  {
    if t.kind == INCOME then "收入" else "支出"
  }

  /** `getDisplayAmount`: a sign, the currency symbol and the amount with two
      decimals. The sign is "+ " exactly for INCOME. */
  function DisplayAmount(t: Transaction): (s: string)
    ensures |s| >= 4 && s[2..4] == "¥ "
    ensures s[..2] == "+ " <==> t.kind == INCOME
    ensures s[..2] == "- " <==> t.kind != INCOME
  {
    var sign := if t.kind == INCOME then "+ " else "- ";
    var s := sign + "¥ " + Fixed2(t.amount);
    assert s[..2] == sign && s[2..4] == "¥ ";
    s
  }

  /** A number with two decimals, rounded half away from zero. */
  function Fixed2(x: real): string {
    var magnitude := if x < 0.0 then -x else x;
    var cents := (magnitude * 100.0 + 0.5).Floor;
    (if x < 0.0 then "-" else "") + Decimal(cents / 100) + "." + Pad(cents % 100, 2)
  }

  /** The decimal digits of `n`, without leading zeros. */
  function Decimal(n: nat): string {
    if n < 10 then [Digit(n)] else Decimal(n / 10) + [Digit(n % 10)]
  }
}
