/** Single-medicine lookup (`get_medicine_info_fast`) and the batch collector
    (`get_multiple_medicines_concurrent`) of app.py. The web search and the
    thread pool are outside the model: the search is represented by its
    outcome, and the pool by the order in which futures complete and by how
    each one completed. */
module Lookup {

  /** The dictionary returned for one medicine. */
  datatype Record = Record(name: string, infoMarkdown: string, url: string, description: string, status: string)

  /** What the search call did: returned a first hit (its fields by key),
      returned no hits, or raised an exception with the given message. */
  datatype SearchOutcome = Found(snippet: map<string, string>) | NoData | Failed(error: string)

  /** How one submitted future completed: it returned the lookup's record
      (built from the search outcome), or `result()` raised (timeout or any
      other exception) with the given message. */
  datatype Completion = Done(outcome: SearchOutcome) | Raised(error: string)

  const NotAvailable: string := "N/A"

  /** `snippet.get(key, "N/A")` */
  function FieldOr(snippet: map<string, string>, key: string): string {
    if key in snippet then snippet[key] else NotAvailable
  }

  /** The record `get_medicine_info_fast(name)` returns when the search ended
      with `outcome`. */
  function MedicineInfo(name: string, outcome: SearchOutcome): (r: Record)
    ensures r.name == name
    ensures r.status == "success" || r.status == "error"
    ensures r.status == "error" <==> outcome.Failed?
    ensures outcome.Failed? ==>
      r.infoMarkdown == "Error fetching data" && r.url == NotAvailable && r.description == "Error: " + outcome.error
    ensures outcome.NoData? ==>
      r.infoMarkdown == NotAvailable && r.url == NotAvailable && r.description == NotAvailable
    ensures outcome.Found? ==>
      && ("markdown" in outcome.snippet ==> r.infoMarkdown == outcome.snippet["markdown"])
      && ("url" in outcome.snippet ==> r.url == outcome.snippet["url"])
      && ("description" in outcome.snippet ==> r.description == outcome.snippet["description"])
    ensures outcome.Found? ==>
      && ("markdown" !in outcome.snippet ==> r.infoMarkdown == NotAvailable)
      && ("url" !in outcome.snippet ==> r.url == NotAvailable)
      && ("description" !in outcome.snippet ==> r.description == NotAvailable)
  {
    match outcome
    case Found(snippet) => SuccessRecord(name, snippet)
    case NoData => SuccessRecord(name, map[])
    case Failed(e) => Record(name, "Error fetching data", NotAvailable, "Error: " + e, "error")
  }

  function SuccessRecord(name: string, snippet: map<string, string>): Record {
    Record(name, FieldOr(snippet, "markdown"), FieldOr(snippet, "url"), FieldOr(snippet, "description"), "success")
  }

  /** The record the collector appends for a future submitted for `name`. */
  function FutureRecord(name: string, c: Completion): (r: Record)
    ensures r.name == name
    ensures r.status == "success" <==> c.Done? && !c.outcome.Failed?
    ensures c.Done? ==> r == MedicineInfo(name, c.outcome)
    ensures c.Raised? ==>
      r.infoMarkdown == "Timeout or error" && r.url == NotAvailable
      && r.description == "Error: " + c.error && r.status == "error"
  {
    match c
    case Done(outcome) => MedicineInfo(name, outcome)
    case Raised(e) => Record(name, "Timeout or error", NotAvailable, "Error: " + e, "error")
  }

  /** The indices 0, 1, ..., n - 1 in order. */
  function Range(n: nat): (r: seq<nat>)
    ensures |r| == n && forall i :: 0 <= i < n ==> r[i] == i
  {
    seq(n, i => i)
  }

  predicate IndicesBelow(idx: seq<nat>, n: nat) {
    forall k :: 0 <= k < |idx| ==> idx[k] < n
  }

  /** The names at the given indices, in that order. */
  function Select(names: seq<string>, idx: seq<nat>): (r: seq<string>)
    requires IndicesBelow(idx, |names|)
    ensures |r| == |idx| && forall k :: 0 <= k < |idx| ==> r[k] == names[idx[k]]
  {
    seq(|idx|, k requires 0 <= k < |idx| => names[idx[k]])
  }

  /** The `name` field of each record. */
  function Names(rs: seq<Record>): (r: seq<string>)
    ensures |r| == |rs| && forall k :: 0 <= k < |rs| ==> r[k] == rs[k].name
  {
    seq(|rs|, k requires 0 <= k < |rs| => rs[k].name)
  }

  /** A sequence that holds every index below n exactly once lists only
      indices below n, and n of them. */
  lemma PermutationBounds(order: seq<nat>, n: nat)
    requires multiset(order) == multiset(Range(n))
    ensures |order| == n && IndicesBelow(order, n)
  {
    assert |multiset(order)| == |order| && |multiset(Range(n))| == n;
    forall k | 0 <= k < |order| ensures order[k] < n {
      assert order[k] in multiset(Range(n));
    }
  }

  lemma SelectConcat(names: seq<string>, a: seq<nat>, b: seq<nat>)
    requires IndicesBelow(a, |names|) && IndicesBelow(b, |names|)
    ensures IndicesBelow(a + b, |names|)
    ensures Select(names, a + b) == Select(names, a) + Select(names, b)
  {
  }


  /** Removing the element at position j takes exactly one copy of it out. */
  lemma RemoveAt<T>(s: seq<T>, j: nat)
    requires j < |s|
    ensures multiset(s) == multiset(s[..j] + s[j + 1..]) + multiset{s[j]}
  {
    assert s == s[..j] + [s[j]] + s[j + 1..];
  }

  lemma CancelOne<T>(p: multiset<T>, q: multiset<T>, x: T)
    requires p + multiset{x} == q + multiset{x}
    ensures p == q
  {
    forall y ensures p[y] == q[y] {
      assert (p + multiset{x})[y] == (q + multiset{x})[y];
    }
  }

  /** In a reordering of a non-empty sequence, finds where its first element
      went; the remaining elements are then reorderings of each other. */
  lemma FindFirst<T>(a: seq<T>, b: seq<T>) returns (j: nat)
    requires a != [] && multiset(a) == multiset(b)
    ensures j < |b| && b[j] == a[0]
    ensures multiset(a[1..]) == multiset(b[..j] + b[j + 1..])
  {
    assert a[0] in multiset(b) by {
      assert a[0] in multiset(a);
    }
    j :| 0 <= j < |b| && b[j] == a[0];
    RemoveAt(a, 0);
    RemoveAt(b, j);
    assert a[..0] + a[1..] == a[1..];
    CancelOne(multiset(a[1..]), multiset(b[..j] + b[j + 1..]), a[0]);
  }

  /** Selecting through an index sequence with one entry removed selects the
      same names less the one at that entry. */
  lemma SelectRemoveAt(names: seq<string>, b: seq<nat>, j: nat)
    requires IndicesBelow(b, |names|) && j < |b|
    ensures IndicesBelow(b[..j] + b[j + 1..], |names|)
    ensures multiset(Select(names, b)) == multiset(Select(names, b[..j] + b[j + 1..])) + multiset{names[b[j]]}
  {
    SelectConcat(names, b[..j], b[j + 1..]);
    var sb := Select(names, b);
    assert Select(names, b[..j] + b[j + 1..]) == sb[..j] + sb[j + 1..];
    RemoveAt(sb, j);
  }

  /** Reordering the indices does not change which names are selected, only
      their order. */
  lemma {:induction false} SelectPermuted(names: seq<string>, a: seq<nat>, b: seq<nat>)
    requires IndicesBelow(a, |names|) && IndicesBelow(b, |names|)
    requires multiset(a) == multiset(b)
    ensures multiset(Select(names, a)) == multiset(Select(names, b))
    decreases |a|
  {
    if a == [] {
      assert |multiset(b)| == |b|;
    } else {
      var j := FindFirst(a, b);
      SelectRemoveAt(names, a, 0);
      assert a[..0] + a[1..] == a[1..];
      SelectRemoveAt(names, b, j);
      SelectPermuted(names, a[1..], b[..j] + b[j + 1..]);
    }
  }

  /** What `get_multiple_medicines_concurrent` ends with: the collected
      records, or the exception the thread pool raises for a worker count
      below one, before any future is submitted. */
  datatype Batch = Collected(records: seq<Record>) | Rejected(message: string)

  /** The worker count used when the caller gives none. */
  const DefaultMaxWorkers: int := 5
  const WorkerCountError: string := "max_workers must be greater than 0"

  /** `get_multiple_medicines_concurrent(names, maxWorkers)`: `order` lists
      the submitted positions in the order `as_completed` yields their futures
      (each exactly once), and `completions[i]` says how the future submitted
      for `names[i]` completed. The worker count only bounds how many lookups
      run at once; it does not change what is collected. */
  method CollectAll(names: seq<string>, maxWorkers: int, order: seq<nat>, completions: seq<Completion>)
    returns (batch: Batch)
    requires |completions| == |names|
    requires multiset(order) == multiset(Range(|names|))
    ensures batch.Rejected? <==> maxWorkers < 1
    ensures batch.Rejected? ==> batch.message == WorkerCountError
    ensures batch.Collected? ==> |batch.records| == |names|
    ensures batch.Collected? ==> forall k :: 0 <= k < |batch.records| ==>
      k < |order| && order[k] < |names| && batch.records[k] == FutureRecord(names[order[k]], completions[order[k]])
    ensures batch.Collected? ==> multiset(Names(batch.records)) == multiset(names)
  {
    if maxWorkers < 1 {
      return Rejected(WorkerCountError);
    }
    PermutationBounds(order, |names|);
    var results := [];
    for k := 0 to |order|
      invariant |results| == k
      invariant forall j :: 0 <= j < k ==> results[j] == FutureRecord(names[order[j]], completions[order[j]])
    {
      var i := order[k];
      var record := FutureRecord(names[i], completions[i]);
      results := results + [record];
    }
    assert Names(results) == Select(names, order);
    assert Select(names, Range(|names|)) == names;
    SelectPermuted(names, order, Range(|names|));
    batch := Collected(results);
  }
}
