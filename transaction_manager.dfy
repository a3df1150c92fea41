/** The transaction store: an insertion-ordered list that is appended to,
    searched, filtered, summed, cleared and reloaded in place, and that reports
    every change through signals. The signals are recorded, in emission order,
    in a ghost event log. */
module Manager {
  import opened Json
  import opened Timestamps
  import opened Transactions
  import opened Ledger

  /** `transactionsChanged`, `transactionAdded(t)` and `transactionDeleted(id)`. */
  datatype Event = Changed | Added(transaction: Transaction) | Deleted(id: string)

  predicate HasId(s: seq<Transaction>, id: string) {
    exists i :: 0 <= i < |s| && s[i].id == id
  }

  /** The position of the first transaction with identifier `id`, or `|s|`
      when there is none. */
  function FirstIndexOf(s: seq<Transaction>, id: string): (i: nat)
    ensures i <= |s|
    ensures i < |s| <==> HasId(s, id)
    ensures i < |s| ==> s[i].id == id
    ensures forall j :: 0 <= j < i ==> s[j].id != id
  {
    if s == [] then 0
    else if s[0].id == id then 0
    else
      var k := FirstIndexOf(s[1..], id);
      assert HasId(s, id) ==> HasId(s[1..], id) by {
        if HasId(s, id) {
          var j :| 0 <= j < |s| && s[j].id == id;
          assert s[1..][j - 1].id == id;
        }
      }
      1 + k
  }

  /** The list without its first transaction with identifier `id`; the list
      itself when there is none. */
  function RemoveFirst(s: seq<Transaction>, id: string): seq<Transaction> {
    var i := FirstIndexOf(s, id);
    if i < |s| then s[..i] + s[i + 1..] else s
  }

  /** The first transaction with identifier `id`, or a default-constructed one
      (with identifier `freshId`) when there is none. */
  function FindById(s: seq<Transaction>, id: string, freshId: string): (t: Transaction)
    ensures HasId(s, id) ==> t in s && t.id == id
    ensures HasId(s, id) ==> t == s[FirstIndexOf(s, id)]
    ensures !HasId(s, id) ==> t == DefaultTransaction(freshId)
  {
    var i := FirstIndexOf(s, id);
    if i < |s| then s[i] else DefaultTransaction(freshId)
  }

  /** How many transactions carry identifier `id`. */
  function Occurrences(s: seq<Transaction>, id: string): nat {
    if s == [] then 0 else (if s[0].id == id then 1 else 0) + Occurrences(s[1..], id)
  }

  /** No identifier occurs twice. The store does not enforce this; the lemmas
      below say which operations keep it. */
  ghost predicate UniqueIds(s: seq<Transaction>) {
    forall i, j :: 0 <= i < j < |s| ==> s[i].id != s[j].id
  }

  /** The JSON array `saveToFile` writes: one object per transaction, in order. */
  function EncodeAll(ts: seq<Transaction>): seq<Json> {
    if ts == [] then [] else EncodeAll(ts[..|ts| - 1]) + [JObject(ToJson(ts[|ts| - 1]))]
  }

  /** The list `loadFromFile` rebuilds from a JSON array: `fromJson` of each
      object element, in order; elements that are not objects are skipped. */
  function DecodeAll(items: seq<Json>, freshId: string): seq<Transaction> {
    if items == [] then []
    else
      var last := items[|items| - 1];
      DecodeAll(items[..|items| - 1], freshId) + (if last.JObject? then [FromJson(last.fields, freshId)] else [])
  }

  // ---------------------------------------------------------------------------
  // Deletion and lookup

  lemma {:induction false} OccurrencesConcat(a: seq<Transaction>, b: seq<Transaction>, id: string)
    ensures Occurrences(a + b, id) == Occurrences(a, id) + Occurrences(b, id)
  {
    if a == [] {
      assert a + b == b;
    } else {
      assert (a + b)[1..] == a[1..] + b;
      OccurrencesConcat(a[1..], b, id);
    }
  }

  lemma {:induction false} OccurrencesHasId(s: seq<Transaction>, id: string)
    ensures Occurrences(s, id) > 0 <==> HasId(s, id)
  {
    if s != [] {
      OccurrencesHasId(s[1..], id);
      if HasId(s[1..], id) {
        var j :| 0 <= j < |s| - 1 && s[1..][j].id == id;
        assert s[j + 1].id == id;
      }
    }
  }

  /** `deleteTransaction` takes out exactly one transaction, the first with the
      identifier, and keeps the others in order (a later duplicate stays);
      without a match the list is unchanged. */
  lemma {:induction false} RemoveFirstEffect(s: seq<Transaction>, id: string)
    ensures !HasId(s, id) ==> RemoveFirst(s, id) == s
    ensures HasId(s, id) ==>
      var i := FirstIndexOf(s, id);
      |RemoveFirst(s, id)| == |s| - 1 &&
      multiset(RemoveFirst(s, id)) == multiset(s) - multiset{s[i]} &&
      Occurrences(RemoveFirst(s, id), id) == Occurrences(s, id) - 1
    ensures Occurrences(s, id) >= 2 ==> HasId(RemoveFirst(s, id), id)
  {
    OccurrencesHasId(s, id);
    if HasId(s, id) {
      var i := FirstIndexOf(s, id);
      var r := RemoveFirst(s, id);
      assert s == s[..i] + [s[i]] + s[i + 1..];
      OccurrencesConcat(s[..i], [s[i]], id);
      OccurrencesConcat(s[..i] + [s[i]], s[i + 1..], id);
      OccurrencesConcat(s[..i], s[i + 1..], id);
      assert Occurrences([s[i]], id) == 1 by {
        assert [s[i]][1..] == [];
      }
      OccurrencesHasId(r, id);
    }
  }

  /** With unique identifiers, a deletion leaves no transaction with that
      identifier and keeps the identifiers unique; so looking the identifier up
      again yields the default transaction, and deleting it again fails. */
  lemma {:induction false} DeleteRemovesId(s: seq<Transaction>, id: string, freshId: string)
    requires UniqueIds(s)
    ensures !HasId(RemoveFirst(s, id), id)
    ensures UniqueIds(RemoveFirst(s, id))
    ensures FindById(RemoveFirst(s, id), id, freshId) == DefaultTransaction(freshId)
  {
    if HasId(s, id) {
      var i := FirstIndexOf(s, id);
      var r := RemoveFirst(s, id);
      assert forall k :: 0 <= k < |r| ==> r[k] == (if k < i then s[k] else s[k + 1]);
      forall k | 0 <= k < |r|
        ensures r[k].id != id
      {
        if k >= i {
          assert s[k + 1].id != s[i].id;
        }
      }
    }
  }

  /** A transaction whose identifier is new to the list is what a lookup of
      that identifier finds right after it was added. */
  lemma AddThenFind(s: seq<Transaction>, t: Transaction, freshId: string)
    requires !HasId(s, t.id)
    ensures FindById(s + [t], t.id, freshId) == t
  {
    var s' := s + [t];
    assert s'[|s|] == t;
    assert forall j :: 0 <= j < |s| ==> s'[j].id != t.id;
    assert FirstIndexOf(s', t.id) == |s|;
  }

  /** Adding keeps the identifiers unique exactly when the new one is new. */
  lemma AddKeepsUnique(s: seq<Transaction>, t: Transaction)
    requires UniqueIds(s)
    ensures UniqueIds(s + [t]) <==> !HasId(s, t.id)
  {
    if HasId(s, t.id) {
      var j :| 0 <= j < |s| && s[j].id == t.id;
      assert (s + [t])[j].id == (s + [t])[|s|].id;
    }
  }

  /** The balance after an addition or a deletion moves by the signed amount
      of the transaction added or removed. */
  lemma {:induction false} BalanceAfterChange(s: seq<Transaction>, t: Transaction, id: string)
    ensures Net(s + [t], Everything) == Net(s, Everything) + Signed(t)
    ensures HasId(s, id) ==>
      Net(RemoveFirst(s, id), Everything) == Net(s, Everything) - Signed(s[FirstIndexOf(s, id)])
  {
    NetConcat(s, [t]);
    if HasId(s, id) {
      var i := FirstIndexOf(s, id);
      assert s == s[..i] + [s[i]] + s[i + 1..];
      NetConcat(s[..i], [s[i]]);
      NetConcat(s[..i] + [s[i]], s[i + 1..]);
      NetConcat(s[..i], s[i + 1..]);
    }
  }

  // ---------------------------------------------------------------------------
  // Persistence

  /** Loading what was saved restores the list, provided every timestamp can be
      written in ISO 8601 form. */
  lemma LoadAfterSave(ts: seq<Transaction>, freshId: string)
    requires forall i :: 0 <= i < |ts| ==> IsoRepresentable(ts[i].timestamp)
    ensures DecodeAll(EncodeAll(ts), freshId) == ts
  {
    var items := EncodeAll(ts);
    EncodeAllElements(ts);
    DecodeAllObjects(items, freshId);
    var r := DecodeAll(items, freshId);
    forall i | 0 <= i < |ts|
      ensures r[i] == ts[i]
    {
      DecodeEncodeOne(ts[i], freshId);
    }
  }

  /** The saved array holds one object per transaction, at the same index. */
  lemma {:induction false} EncodeAllElements(ts: seq<Transaction>)
    ensures |EncodeAll(ts)| == |ts|
    ensures forall i :: 0 <= i < |ts| ==> EncodeAll(ts)[i] == JObject(ToJson(ts[i]))
  {
    if ts != [] {
      var p, y := ts[..|ts| - 1], ts[|ts| - 1];
      assert ts == p + [y];
      EncodeAllElements(p);
      EncodeSnoc(p, y);
      var e := EncodeAll(ts);
      forall i | 0 <= i < |ts|
        ensures e[i] == JObject(ToJson(ts[i]))
      {
        if i < |p| {
          assert e[i] == EncodeAll(p)[i] && ts[i] == p[i];
        }
      }
    }
  }

  /** An array of objects loads one transaction per object, at the same index. */
  lemma {:induction false} DecodeAllObjects(items: seq<Json>, freshId: string)
    requires forall j :: 0 <= j < |items| ==> items[j].JObject?
    ensures |DecodeAll(items, freshId)| == |items|
    ensures forall j :: 0 <= j < |items| ==> DecodeAll(items, freshId)[j] == FromJson(items[j].fields, freshId)
  {
    if items != [] {
      var p, x := items[..|items| - 1], items[|items| - 1];
      assert items == p + [x];
      DecodeAllObjects(p, freshId);
      DecodeSnoc(p, x, freshId);
      var r := DecodeAll(items, freshId);
      forall j | 0 <= j < |items|
        ensures r[j] == FromJson(items[j].fields, freshId)
      {
        if j < |p| {
          assert r[j] == DecodeAll(p, freshId)[j] && items[j] == p[j];
        }
      }
    }
  }

  lemma EncodeSnoc(ts: seq<Transaction>, t: Transaction)
    ensures EncodeAll(ts + [t]) == EncodeAll(ts) + [JObject(ToJson(t))]
  {
    assert (ts + [t])[..|ts|] == ts;
  }

  lemma DecodeEncodeOne(t: Transaction, freshId: string)
    requires IsoRepresentable(t.timestamp)
    ensures FromJson(ToJson(t), freshId) == t
  {
    FromJsonToJson(t, freshId);
  }

  lemma DecodeSnoc(items: seq<Json>, x: Json, freshId: string)
    ensures DecodeAll(items + [x], freshId) ==
      DecodeAll(items, freshId) + (if x.JObject? then [FromJson(x.fields, freshId)] else [])
  {
    assert (items + [x])[..|items|] == items;
  }

  /** Decoding distributes over concatenation: the elements of `b` are
      decoded after those of `a`, whatever either holds. */
  lemma {:induction false} DecodeAllConcat(a: seq<Json>, b: seq<Json>, freshId: string)
    ensures DecodeAll(a + b, freshId) == DecodeAll(a, freshId) + DecodeAll(b, freshId)
    decreases |b|
  {
    if b == [] {
      assert a + b == a;
    } else {
      var p := b[..|b| - 1];
      var ab := a + b;
      assert ab[..|ab| - 1] == a + p;
      assert ab[|ab| - 1] == b[|b| - 1];
      DecodeAllConcat(a, p, freshId);
    }
  }

  /** Dropping a non-object element changes nothing that is loaded: it is
      skipped, and the elements on either side of it still load, in order. */
  lemma DropNonObject(items: seq<Json>, j: int, freshId: string)
    requires 0 <= j < |items| && !items[j].JObject?
    ensures DecodeAll(items, freshId) == DecodeAll(items[..j] + items[j + 1..], freshId)
  {
    var left, x, right := items[..j], items[j], items[j + 1..];
    assert items == left + ([x] + right);
    assert DecodeAll([x], freshId) == [] by {
      assert [x][..0] == [];
    }
    DecodeAllConcat([x], right, freshId);
    DecodeAllConcat(left, [x] + right, freshId);
    DecodeAllConcat(left, right, freshId);
  }

  /** Every loaded transaction is decoded from an object element of the array,
      and when every element is an object none is skipped. */
  lemma {:induction false} DecodedFromObjects(items: seq<Json>, freshId: string)
    ensures forall t :: t in DecodeAll(items, freshId) ==>
      exists j :: 0 <= j < |items| && items[j].JObject? && t == FromJson(items[j].fields, freshId)
    ensures |DecodeAll(items, freshId)| <= |items|
    ensures (forall j :: 0 <= j < |items| ==> items[j].JObject?) ==> |DecodeAll(items, freshId)| == |items|
  {
    if items != [] {
      var p := items[..|items| - 1];
      DecodedFromObjects(p, freshId);
      forall t | t in DecodeAll(items, freshId)
        ensures exists j :: 0 <= j < |items| && items[j].JObject? && t == FromJson(items[j].fields, freshId)
      {
        if t in DecodeAll(p, freshId) {
          var j :| 0 <= j < |p| && p[j].JObject? && t == FromJson(p[j].fields, freshId);
          assert items[j] == p[j];
        } else {
          assert items[|items| - 1].JObject? && t == FromJson(items[|items| - 1].fields, freshId);
        }
      }
    }
  }

  /** Every loaded transaction is decoded from an object element of the array,
      when every element is an object none is skipped, and a non-object element
      is skipped without stopping the load. */
  lemma LoadSkipsOnlyNonObjects(items: seq<Json>, freshId: string)
    ensures forall t :: t in DecodeAll(items, freshId) ==>
      exists j :: 0 <= j < |items| && items[j].JObject? && t == FromJson(items[j].fields, freshId)
    ensures |DecodeAll(items, freshId)| <= |items|
    ensures (forall j :: 0 <= j < |items| ==> items[j].JObject?) ==> |DecodeAll(items, freshId)| == |items|
    ensures forall j :: 0 <= j < |items| && !items[j].JObject? ==>
      DecodeAll(items, freshId) == DecodeAll(items[..j] + items[j + 1..], freshId)
  {
    DecodedFromObjects(items, freshId);
    forall j | 0 <= j < |items| && !items[j].JObject?
      ensures DecodeAll(items, freshId) == DecodeAll(items[..j] + items[j + 1..], freshId)
    {
      DropNonObject(items, j, freshId);
    }
  }

  // ---------------------------------------------------------------------------
  // The store

  class TransactionManager {
    var transactions: seq<Transaction>
    ghost var events: seq<Event>

    constructor ()
      ensures transactions == [] && events == []
    {
      transactions := [];
      events := [];
    }

    /** Appends unconditionally, then signals a change and the addition. */
    method AddTransaction(t: Transaction)
      modifies this
      ensures transactions == old(transactions) + [t]
      ensures |transactions| == |old(transactions)| + 1
      ensures events == old(events) + [Changed, Added(t)]
    {
      transactions := transactions + [t];
      events := events + [Changed];
      events := events + [Added(t)];
    }

    /** Removes the first transaction with identifier `id` and signals a change
      and the deletion; reports false and changes nothing when none has it. */
    method DeleteTransaction(id: string) returns (deleted: bool)
      modifies this
      ensures deleted == HasId(old(transactions), id)
      ensures transactions == RemoveFirst(old(transactions), id)
      ensures events == if deleted then old(events) + [Changed, Deleted(id)] else old(events)
    {
      var i := 0;
      while i < |transactions|
        invariant 0 <= i <= |transactions|
        invariant transactions == old(transactions) && events == old(events)
        invariant forall j :: 0 <= j < i ==> transactions[j].id != id
      {
        if transactions[i].id == id {
          transactions := transactions[..i] + transactions[i + 1..];
          events := events + [Changed];
          events := events + [Deleted(id)];
          return true;
        }
        i := i + 1;
      }
      return false;
    }

    /** A copy of the list. */
    method GetTransactions() returns (snapshot: seq<Transaction>)
      ensures snapshot == transactions
    {
      snapshot := transactions;
    }

    /** The first transaction with identifier `id`, or a default-constructed
      one (whose fresh identifier is `freshId`) when there is none. */
    method GetTransactionById(id: string, freshId: string) returns (t: Transaction)
      ensures t == FindById(transactions, id, freshId)
    {
      var i := 0;
      while i < |transactions|
        invariant 0 <= i <= |transactions|
        invariant forall j :: 0 <= j < i ==> transactions[j].id != id
      {
        if transactions[i].id == id {
          return transactions[i];
        }
        i := i + 1;
      }
      return DefaultTransaction(freshId);
    }

    /** The transactions with `startDate <= timestamp <= endDate`, in order. */
    method FilterByDate(startDate: Timestamp, endDate: Timestamp) returns (result: seq<Transaction>)
      ensures result == Select(transactions, Between(startDate, endDate))
    {
      result := [];
      var i := 0;
      while i < |transactions|
        invariant 0 <= i <= |transactions|
        invariant result == Select(transactions[..i], Between(startDate, endDate))
      {
        var timestamp := transactions[i].timestamp;
        if Le(startDate, timestamp) && Le(timestamp, endDate) {
          result := result + [transactions[i]];
        }
        assert transactions[..i + 1][..i] == transactions[..i];
        i := i + 1;
      }
      assert transactions[..i] == transactions;
    }

    /** The transactions with `minAmount <= amount <= maxAmount`, in order. */
    method FilterByAmount(minAmount: real, maxAmount: real) returns (result: seq<Transaction>)
      ensures result == Select(transactions, AmountBetween(minAmount, maxAmount))
    {
      result := [];
      var i := 0;
      while i < |transactions|
        invariant 0 <= i <= |transactions|
        invariant result == Select(transactions[..i], AmountBetween(minAmount, maxAmount))
      {
        var amount := transactions[i].amount;
        if amount >= minAmount && amount <= maxAmount {
          result := result + [transactions[i]];
        }
        assert transactions[..i + 1][..i] == transactions[..i];
        i := i + 1;
      }
      assert transactions[..i] == transactions;
    }

    /** The transactions whose category is exactly `category`, in order. */
    method FilterByCategory(category: string) returns (result: seq<Transaction>)
      ensures result == Select(transactions, InCategory(category))
    {
      result := [];
      var i := 0;
      while i < |transactions|
        invariant 0 <= i <= |transactions|
        invariant result == Select(transactions[..i], InCategory(category))
      {
        if transactions[i].category == category {
          result := result + [transactions[i]];
        }
        assert transactions[..i + 1][..i] == transactions[..i];
        i := i + 1;
      }
      assert transactions[..i] == transactions;
    }

    /** The sum of all amounts, whatever their kind. */
    method CalculateTotalAmount() returns (total: real)
      ensures total == Total(transactions, Everything, AnyKind)
    {
      total := 0.0;
      var i := 0;
      while i < |transactions|
        invariant 0 <= i <= |transactions|
        invariant total == Total(transactions[..i], Everything, AnyKind)
      {
        total := total + transactions[i].amount;
        assert transactions[..i + 1][..i] == transactions[..i];
        i := i + 1;
      }
      assert transactions[..i] == transactions;
    }

    /** Income amounts added, all other amounts subtracted. */
    method CalculateBalance() returns (balance: real)
      ensures balance == Net(transactions, Everything)
    {
      balance := 0.0;
      var i := 0;
      while i < |transactions|
        invariant 0 <= i <= |transactions|
        invariant balance == Net(transactions[..i], Everything)
      {
        if transactions[i].kind == INCOME {
          balance := balance + transactions[i].amount;
        } else {
          balance := balance - transactions[i].amount;
        }
        assert transactions[..i + 1][..i] == transactions[..i];
        i := i + 1;
      }
      assert transactions[..i] == transactions;
    }

    /** The JSON array `saveToFile` writes (the file itself is not modelled). */
    method ToDocument() returns (doc: Json)
      ensures doc == JArray(EncodeAll(transactions))
    {
      var items: seq<Json> := [];
      var i := 0;
      while i < |transactions|
        invariant 0 <= i <= |transactions|
        invariant items == EncodeAll(transactions[..i])
      {
        items := items + [JObject(ToJson(transactions[i]))];
        assert transactions[..i + 1][..i] == transactions[..i];
        i := i + 1;
      }
      assert transactions[..i] == transactions;
      doc := JArray(items);
    }

    /** The part of `loadFromFile` after the document has been parsed: a
      document that is not an array is refused and nothing changes; otherwise
      the list is replaced by the decoded objects and one change is signalled. */
    method LoadFromDocument(doc: Json, freshId: string) returns (ok: bool)
      modifies this
      ensures ok == doc.JArray?
      ensures !ok ==> transactions == old(transactions) && events == old(events)
      ensures ok ==> transactions == DecodeAll(doc.items, freshId) && events == old(events) + [Changed]
    {
      if !doc.JArray? {
        return false;
      }
      transactions := [];
      var items := doc.items;
      var i := 0;
      while i < |items|
        invariant 0 <= i <= |items|
        invariant transactions == DecodeAll(items[..i], freshId)
        invariant events == old(events)
      {
        var value := items[i];
        if value.JObject? {
          transactions := transactions + [FromJson(value.fields, freshId)];
        }
        assert items[..i + 1][..i] == items[..i];
        i := i + 1;
      }
      assert items[..i] == items;
      events := events + [Changed];
      return true;
    }

    /** Empties the list and signals a change, even when it was already empty. */
    method ClearAll()
      modifies this
      ensures transactions == []
      ensures events == old(events) + [Changed]
    {
      transactions := [];
      events := events + [Changed];
    }

    method GetTransactionCount() returns (count: int)
      ensures count == |transactions|
    {
      count := |transactions|;
    }
  }
}
