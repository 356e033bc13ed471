/** A model of the expense store behind the `add` command of the expense
    tracker command-line tool: loading the stored list with its fall-backs,
    choosing the next id, and appending a new expense record. */
module ExpenseTracker {

  /** One expense record. The date field is called `data` in the stored
      records, and the model keeps that name. */
  datatype Expense = Expense(id: int, data: string, description: string, amount: real)

  /** What parsing the stored document yields: an array of expense records,
      or any other value (an object, a string, a number, a boolean, null). */
  datatype JsonValue = JsonArray(items: seq<Expense>) | JsonOther

  /** The state of the data file, as the next load sees it: absent, present
      but throwing when read or parsed, or parsed to a value. */
  datatype FileState = Missing | Unparseable | Parsed(doc: JsonValue)

  /** How one run of the `add` command ends. */
  datatype Outcome =
    | Saved(id: int)       // the record was appended and the file rewritten
    | AmountNegative       // "Amount must be positive." and exit status 1
    | TypeError            // the loaded value is not an array: getNextId or push throws

  /** The file after one run of `add`, and how the run ended. */
  datatype AddResult = AddResult(file: FileState, outcome: Outcome)

  /** One invocation of `add`: its options and the clock reading it sees. */
  datatype Request = Request(description: string, amount: real, now: string)

  /** No two records share an id. */
  predicate UniqueIds(expenses: seq<Expense>) {
    forall i, j :: 0 <= i < j < |expenses| ==> expenses[i].id != expenses[j].id
  }

  // ---------------------------------------------------------------------------
  // loadExpenses

  /** The value loadExpenses returns: the empty list when the file is missing
      or reading or parsing it throws, otherwise whatever the parser produced,
      unchecked. */
  function LoadExpenses(f: FileState): (v: JsonValue)
    ensures f.Missing? ==> v == JsonArray([])
    ensures f.Unparseable? ==> v == JsonArray([])
    ensures f.Parsed? ==> v == f.doc
  {
    match f
    case Missing => JsonArray([])
    case Unparseable => JsonArray([])
    case Parsed(doc) => doc
  }

  /** Loading fails open: an empty list comes back exactly when the file is
      missing, cannot be read or parsed, or holds an empty array. */
  lemma LoadEmptyIff(f: FileState)
    ensures LoadExpenses(f) == JsonArray([]) <==>
            f.Missing? || f.Unparseable? || f.doc == JsonArray([])
  {
  }

  /** Loading does not check the shape of the parsed value: a stored
      non-array comes back as a non-array, not as the empty list. */
  lemma LoadKeepsNonArray()
    ensures LoadExpenses(Parsed(JsonOther)).JsonOther?
  {
  }

  // ---------------------------------------------------------------------------
  // getNextId

  /** The largest id in a non-empty list (Math.max over the mapped ids). */
  function MaxId(expenses: seq<Expense>): (m: int)
    requires |expenses| > 0
    ensures forall i :: 0 <= i < |expenses| ==> expenses[i].id <= m
    ensures exists i :: 0 <= i < |expenses| && expenses[i].id == m
  {
    if |expenses| == 1 then expenses[0].id
    else
      var rest := MaxId(expenses[1..]);
      if expenses[0].id > rest then expenses[0].id else rest
  }

  /** The id the next record gets: 1 for an empty list, otherwise one more
      than the largest id present. */
  function NextId(expenses: seq<Expense>): (next: int)
    ensures |expenses| == 0 ==> next == 1
    ensures forall i :: 0 <= i < |expenses| ==> expenses[i].id < next
    ensures |expenses| > 0 ==> exists i :: 0 <= i < |expenses| && expenses[i].id == next - 1
  {
    if |expenses| == 0 then 1 else MaxId(expenses) + 1
  }

  /** The next id is the least integer above every id present (and 1 when
      there is none): the id is derived, not a running counter. */
  lemma NextIdIsLeastAbove(expenses: seq<Expense>, k: int)
    requires |expenses| > 0
    requires forall i :: 0 <= i < |expenses| ==> expenses[i].id < k
    ensures NextId(expenses) <= k
  {
  }

  /** The next id is not yet used in the list. */
  lemma NextIdFresh(expenses: seq<Expense>)
    ensures forall e :: e in expenses ==> e.id != NextId(expenses)
  {
  }

  /** When the ids are 1..n in order, the next id is n + 1. */
  lemma {:induction false} NextIdOfConsecutive(expenses: seq<Expense>)
    requires forall k :: 0 <= k < |expenses| ==> expenses[k].id == k + 1
    ensures NextId(expenses) == |expenses| + 1
  {
    if |expenses| > 0 {
      NextIdIsLeastAbove(expenses, |expenses| + 1);
      assert expenses[|expenses| - 1].id == |expenses|;
    }
  }

  // ---------------------------------------------------------------------------
  // The date of a new record

  /** The date part of an ISO timestamp: everything before the first 'T'
      (split('T')[0]); the whole string when it has no 'T'. */
  function DatePart(iso: string): (d: string)
    ensures d <= iso
    ensures 'T' !in d
    ensures |d| < |iso| ==> iso[|d|] == 'T'
  {
    if |iso| == 0 || iso[0] == 'T' then []
    else [iso[0]] + DatePart(iso[1..])
  }

  // ---------------------------------------------------------------------------
  // The add command

  /** The record `add` builds for a list that currently holds `expenses`. */
  function NewExpense(expenses: seq<Expense>, description: string, amount: real, now: string): (e: Expense)
    ensures e.id !in set x | x in expenses :: x.id
    ensures e.description == description && e.amount == amount
  {
    NextIdFresh(expenses);
    Expense(NextId(expenses), DatePart(now), description, amount)
  }

  /** What one run of `add` does to the data file: load; reject a negative
      amount before anything else; fail on a loaded value that is not an
      array; otherwise append the new record and save the whole list. */
  function AddAction(f: FileState, description: string, amount: real, now: string): (r: AddResult)
    ensures r.outcome.Saved? <==> amount >= 0.0 && LoadExpenses(f).JsonArray?
    ensures !r.outcome.Saved? ==> r.file == f
  {
    var loaded := LoadExpenses(f);
    if amount < 0.0 then AddResult(f, AmountNegative)
    else if loaded.JsonOther? then AddResult(f, TypeError)
    else
      var e := NewExpense(loaded.items, description, amount, now);
      AddResult(Parsed(JsonArray(loaded.items + [e])), Saved(e.id))
  }

  /** A negative amount aborts with the error and leaves the file alone. */
  lemma AddRejectsNegative(f: FileState, description: string, amount: real, now: string)
    requires amount < 0.0
    ensures AddAction(f, description, amount, now) == AddResult(f, AmountNegative)
  {
  }

  /** Only a negative amount is rejected: an amount of zero is saved. */
  lemma AddAcceptsZero(f: FileState, description: string, now: string)
    requires LoadExpenses(f).JsonArray?
    ensures AddAction(f, description, 0.0, now).outcome.Saved?
  {
  }

  /** A stored value that is not an array makes a non-negative `add` throw
      before the file is rewritten. */
  lemma AddOnNonArrayThrows(f: FileState, description: string, amount: real, now: string)
    requires amount >= 0.0 && LoadExpenses(f).JsonOther?
    ensures AddAction(f, description, amount, now) == AddResult(f, TypeError)
  {
  }

  /** A successful `add` stores the old list, unchanged and in order, with
      one record after it: the next id, the date of `now`, and the given
      description and amount; the reported id is that record's id. */
  lemma AddAppends(f: FileState, description: string, amount: real, now: string)
    requires amount >= 0.0 && LoadExpenses(f).JsonArray?
    ensures var old_ := LoadExpenses(f).items;
            var r := AddAction(f, description, amount, now);
            var new_ := LoadExpenses(r.file);
            && new_.JsonArray?
            && |new_.items| == |old_| + 1
            && new_.items[..|old_|] == old_
            && new_.items[|old_|] == Expense(NextId(old_), DatePart(now), description, amount)
            && r.outcome == Saved(NextId(old_))
  {
  }

  /** A successful `add` keeps the ids of the stored list unique. */
  lemma AddPreservesUniqueIds(f: FileState, description: string, amount: real, now: string)
    requires LoadExpenses(f).JsonArray? && UniqueIds(LoadExpenses(f).items)
    ensures LoadExpenses(AddAction(f, description, amount, now).file).JsonArray?
    ensures UniqueIds(LoadExpenses(AddAction(f, description, amount, now).file).items)
  {
  }

  /** The file after a series of `add` runs, applied in order. */
  function RunAdds(f: FileState, requests: seq<Request>): (g: FileState)
    ensures (forall k :: 0 <= k < |requests| ==> requests[k].amount < 0.0) ==> g == f
  {
    if |requests| == 0 then f
    else
      var last := requests[|requests| - 1];
      AddAction(RunAdds(f, requests[..|requests| - 1]), last.description, last.amount, last.now).file
  }

  /** Any series of `add` runs keeps the ids of the stored list unique. */
  lemma {:induction false} RunAddsPreservesUniqueIds(f: FileState, requests: seq<Request>)
    requires LoadExpenses(f).JsonArray? && UniqueIds(LoadExpenses(f).items)
    ensures LoadExpenses(RunAdds(f, requests)).JsonArray?
    ensures UniqueIds(LoadExpenses(RunAdds(f, requests)).items)
  {
    if |requests| > 0 {
      var before := RunAdds(f, requests[..|requests| - 1]);
      RunAddsPreservesUniqueIds(f, requests[..|requests| - 1]);
      var last := requests[|requests| - 1];
      AddPreservesUniqueIds(before, last.description, last.amount, last.now);
    }
  }

  /** The stored list holds one record per request, in order, numbered
      1, 2, 3, ... and carrying each request's description and amount. */
  predicate RecordsRequests(stored: seq<Expense>, requests: seq<Request>) {
    && |stored| == |requests|
    && forall k :: 0 <= k < |stored| ==>
         && stored[k].id == k + 1
         && stored[k].description == requests[k].description
         && stored[k].amount == requests[k].amount
  }

  /** Appending the record for one more request keeps RecordsRequests. */
  lemma RecordsRequestsAppend(prev: seq<Expense>, init: seq<Request>, e: Expense, last: Request)
    requires RecordsRequests(prev, init)
    requires e.id == |prev| + 1 && e.description == last.description && e.amount == last.amount
    ensures RecordsRequests(prev + [e], init + [last])
  {
  }

  /** The requests whose amount `add` accepts, in order. */
  function Accepted(requests: seq<Request>): (r: seq<Request>)
    ensures |r| <= |requests|
    ensures forall k :: 0 <= k < |r| ==> r[k].amount >= 0.0
  {
    if |requests| == 0 then []
    else
      var init, last := requests[..|requests| - 1], requests[|requests| - 1];
      if last.amount < 0.0 then Accepted(init) else Accepted(init) + [last]
  }

  /** When no amount is negative, every request is accepted. */
  lemma {:induction false} AcceptedAll(requests: seq<Request>)
    requires forall k :: 0 <= k < |requests| ==> requests[k].amount >= 0.0
    ensures Accepted(requests) == requests
  {
    if |requests| > 0 {
      var init := requests[..|requests| - 1];
      AcceptedAll(init);
      assert init + [requests[|requests| - 1]] == requests;
    }
  }

  /** Starting from an empty store, any series of `add` runs stores exactly
      the accepted runs, one record each, in order, numbered 1, 2, 3, ...;
      a rejected run leaves no trace and uses up no id. */
  lemma {:induction false} RunAddsFromEmptyRecordsAccepted(f: FileState, requests: seq<Request>)
    requires LoadExpenses(f) == JsonArray([])
    ensures LoadExpenses(RunAdds(f, requests)).JsonArray?
    ensures RecordsRequests(LoadExpenses(RunAdds(f, requests)).items, Accepted(requests))
  {
    if |requests| > 0 {
      var init, last := requests[..|requests| - 1], requests[|requests| - 1];
      var before := RunAdds(f, init);
      RunAddsFromEmptyRecordsAccepted(f, init);
      if last.amount >= 0.0 {
        var prev := LoadExpenses(before).items;
        NextIdOfConsecutive(prev);
        AddAppends(before, last.description, last.amount, last.now);
        var e := NewExpense(prev, last.description, last.amount, last.now);
        assert LoadExpenses(RunAdds(f, requests)).items == prev + [e];
        RecordsRequestsAppend(prev, Accepted(init), e, last);
      }
    }
  }

  /** Starting from an empty store, a series of `add` runs with non-negative
      amounts stores one record per run, in order, numbered 1, 2, 3, ... */
  lemma RunAddsFromEmptyNumbersConsecutively(f: FileState, requests: seq<Request>)
    requires LoadExpenses(f) == JsonArray([])
    requires forall k :: 0 <= k < |requests| ==> requests[k].amount >= 0.0
    ensures LoadExpenses(RunAdds(f, requests)).JsonArray?
    ensures RecordsRequests(LoadExpenses(RunAdds(f, requests)).items, requests)
  {
    RunAddsFromEmptyRecordsAccepted(f, requests);
    AcceptedAll(requests);
  }

  /** The data file, which each command reads at its start and the `add`
      command rewrites in full at its end. */
  class ExpenseStore {
    var file: FileState

    constructor (initial: FileState)
      ensures file == initial
    {
      file := initial;
    }

    /** The `add` action: `now` stands for the clock reading. */
    method Add(description: string, amount: real, now: string) returns (outcome: Outcome)
      modifies this
      ensures AddResult(file, outcome) == AddAction(old(file), description, amount, now)
      ensures amount < 0.0 ==> outcome == AmountNegative && file == old(file)
      ensures outcome.Saved? ==> outcome.id !in set e | e in LoadExpenses(old(file)).items :: e.id
    {
      var expenses := LoadExpenses(file);
      if amount < 0.0 {
        return AmountNegative;
      }
      if expenses.JsonOther? {
        return TypeError;
      }
      var list := expenses.items;
      var newExpense := NewExpense(list, description, amount, now);
      list := list + [newExpense];
      file := Parsed(JsonArray(list));
      outcome := Saved(newExpense.id);
    }
  }
}
